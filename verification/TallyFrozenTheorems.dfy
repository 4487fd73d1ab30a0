/** Which calls can make a retry differ from the last post, over all runs (app/services/tally.py). */
module TallyFrozenTheorems {
  import opened Records
  import opened TallyQueue
  import opened TallyQueueTheorems
  import opened TallyRetryTheorems

  // ---------------------------------------------------------------- the object of a call

  /** The call works on batch `id`. */
  ghost predicate Works(rows: Rows, action: Action, id: BatchId) {
    && action.Sync? && Admissible(rows, action) && Target(action) == id
    && !Finished(rows[action.id].status) && !Reviewing(rows)
  }

  /** The object that the call works on. */
  function Held(rows: Rows, action: Action): Row
    requires action.Sync? && action.id in rows && Target(action) in rows
  {
    if action.other.Some? then (if action.cached.Some? then action.cached.value else rows[action.other.value])
    else if action.copy.status != rows[action.id].status then rows[action.id]
    else action.copy
  }

  /**
   The object cannot change the request or the REMOTEID. One loaded in the row's own status must hold the
   row's. The claim of a PENDING_SYNC object of a row that is SYNCING fails; it must only have both, for a
   missing one would be filled in and saved. A SYNCING object writes neither.
   */
  predicate Harmless(row: Row, held: Row) {
    if held.status.Syncing? then true
    else if held.status == row.status then held.request == row.request && held.remoteId == row.remoteId
    else held.request.Some? && held.remoteId.Some?
  }

  lemma WorkStep(state: Effect, action: Action, id: BatchId)
    requires Inv(state) && Works(state.rows, action, id)
    ensures id in state.rows && Loaded(state.rows[id], Held(state.rows, action))
    ensures var effect := SyncLocked(state.rows, id, Held(state.rows, action), action.attempt);
            Step(state, action) == Effect(effect.rows, state.log + effect.log)
  {
    hide SyncLocked, Uncertain;
  }

  lemma IdleStep(state: Effect, action: Action)
    requires action.Sync? && (!Admissible(state.rows, action) || Finished(state.rows[action.id].status) || Reviewing(state.rows))
    ensures Step(state, action) == state
  {
    hide SyncLocked;
    assert state.log + [] == state.log;
  }

  /** The row carries this request and REMOTEID, and so does what the call sends. */
  ghost predicate Carries(rows: Rows, id: BatchId, effect: Effect, request: Request, remoteId: RemoteId)
    requires id in rows
  {
    effect.rows.Keys == rows.Keys
    && (forall b | b in rows && b != id :: effect.rows[b] == rows[b])
    && var next, sent := effect.rows[id], SentIn(effect.log);
       && |effect.log| <= 2 && (|effect.log| == 2 ==> !effect.log[1].Sent?)
       && next.kind == rows[id].kind
       && next.request == Some(request) && next.remoteId == Some(remoteId)
       && (sent.Some? ==> sent.value.batch == id && sent.value.request == request && sent.value.remoteId == remoteId)
  }

  /** Whatever the call meets, a harmless object leaves the frozen request and REMOTEID, and sends them. */
  lemma HarmlessCarries(rows: Rows, id: BatchId, held: Row, a: Attempt, request: Request, remoteId: RemoteId)
    requires id in rows && Loaded(rows[id], held) && Harmless(rows[id], held) && !rows[id].status.Failed?
    requires rows[id].request == Some(request) && rows[id].remoteId == Some(remoteId)
    ensures Carries(rows, id, SyncLocked(rows, id, held, a), request, remoteId)
  {
    hide Classify, Settled, LeaseHeld;
  }

  /** A call on a batch that leaves other batches alone, and posts what the row then carries. */
  lemma AnyWork(rows: Rows, id: BatchId, held: Row, a: Attempt)
    requires id in rows && Loaded(rows[id], held)
    ensures var effect := SyncLocked(rows, id, held, a);
            && effect.rows.Keys == rows.Keys
            && (forall b | b in rows && b != id :: effect.rows[b] == rows[b])
            && effect.rows[id].kind == rows[id].kind
            && |effect.log| <= 2 && (|effect.log| == 2 ==> !effect.log[1].Sent?)
            && (SentIn(effect.log).Some? ==>
                  var sent := SentIn(effect.log).value;
                  && sent.batch == id && rows[id].kind.Voucher?
                  && effect.rows[id].request == Some(sent.request) && effect.rows[id].remoteId == Some(sent.remoteId))
  {
    hide Classify, Settled, LeaseHeld;
  }

  // ---------------------------------------------------------------- FAILED since the last post

  /** The batch was FAILED at some moment since its last post. */
  ghost predicate FailedSincePost(run: seq<Action>, id: BatchId) {
    exists k: nat :: k <= |run| && FailedThen(run, k, id)
  }

  ghost predicate FailedThen(run: seq<Action>, k: nat, id: BatchId)
    requires k <= |run|
  {
    var past := Run(EMPTY, run[..k]);
    id in past.rows && past.rows[id].status.Failed? && PostCount(past.log, id) == PostCount(Run(EMPTY, run).log, id)
  }

  lemma RunSnoc(run: seq<Action>, action: Action)
    ensures Run(EMPTY, run + [action]) == Step(Run(EMPTY, run), action)
  {
    hide Step;
    assert (run + [action])[..|run|] == run;
  }

  lemma FailedNow(run: seq<Action>, id: BatchId)
    requires id in Run(EMPTY, run).rows && Run(EMPTY, run).rows[id].status.Failed?
    ensures FailedSincePost(run, id)
  {
    hide Run;
    assert run[..|run|] == run;
    assert FailedThen(run, |run|, id);
  }

  /** Without a post, one more action makes a difference only if the batch is FAILED after it. */
  lemma FailedSnoc(run: seq<Action>, action: Action, id: BatchId)
    requires PostCount(Run(EMPTY, run + [action]).log, id) == PostCount(Run(EMPTY, run).log, id)
    ensures var after := Run(EMPTY, run + [action]).rows;
            FailedSincePost(run + [action], id) <==> FailedSincePost(run, id) || (id in after && after[id].status.Failed?)
  {
    hide Run, PostCount;
    var longer := run + [action];
    forall k: nat | k <= |run| ensures FailedThen(longer, k, id) <==> FailedThen(run, k, id) {
      assert longer[..k] == run[..k];
    }
    assert longer[..|longer|] == longer;
    var after := Run(EMPTY, longer).rows;
    assert FailedThen(longer, |longer|, id) <==> id in after && after[id].status.Failed?;
    hide FailedThen;
    if FailedSincePost(run, id) {
      var k: nat :| k <= |run| && FailedThen(run, k, id);
      assert FailedThen(longer, k, id);
    }
    if FailedSincePost(longer, id) {
      var k: nat :| k <= |longer| && FailedThen(longer, k, id);
      assert k <= |run| ==> FailedThen(run, k, id);
    }
  }

  // ---------------------------------------------------------------- harmless runs

  /** The batch has been posted, and was not FAILED since. */
  ghost predicate Bound(run: seq<Action>, id: BatchId) {
    LastSent(Run(EMPTY, run).log, id).Some? && !FailedSincePost(run, id)
  }

  /** The action, done after the run, is not a harmful call for a batch that is bound. */
  ghost predicate HarmlessAction(run: seq<Action>, action: Action, id: BatchId) {
    var rows := Run(EMPTY, run).rows;
    Works(rows, action, id) && Bound(run, id) ==> id in rows && Harmless(rows[id], Held(rows, action))
  }

  /** No call from position `from` on is harmful. */
  ghost predicate HarmlessFrom(run: seq<Action>, from: nat, id: BatchId) {
    |run| <= from
    || (HarmlessFrom(run[..|run| - 1], from, id) && HarmlessAction(run[..|run| - 1], run[|run| - 1], id))
  }

  lemma HarmlessSnoc(run: seq<Action>, action: Action, from: nat, id: BatchId)
    requires HarmlessFrom(run, from, id) && HarmlessAction(run, action, id)
    ensures HarmlessFrom(run + [action], from, id)
  {
    hide HarmlessAction;
    assert (run + [action])[..|run|] == run;
  }

  /** The row remembers the last post until the batch is FAILED. */
  ghost predicate Remembers(run: seq<Action>, id: BatchId) {
    var state := Run(EMPTY, run);
    var last := LastSent(state.log, id);
    last.Some? ==>
      && last.value.Sent? && id in state.rows && state.rows[id].kind.Voucher?
      && (FailedSincePost(run, id)
          || (state.rows[id].request == Some(last.value.request) && state.rows[id].remoteId == Some(last.value.remoteId)))
  }

  /** Without a post of the batch, a row that keeps its kind and, unless FAILED, its two fields still remembers. */
  lemma StillRemembers(run: seq<Action>, action: Action, id: BatchId)
    requires Remembers(run, id)
    requires var before, after := Run(EMPTY, run), Run(EMPTY, run + [action]);
             && LastSent(after.log, id) == LastSent(before.log, id)
             && PostCount(after.log, id) == PostCount(before.log, id)
             && (id in before.rows ==>
                   && id in after.rows && after.rows[id].kind == before.rows[id].kind
                   && (Bound(run, id) ==>
                         after.rows[id].request == before.rows[id].request && after.rows[id].remoteId == before.rows[id].remoteId))
    ensures Remembers(run + [action], id)
  {
    FailedSnoc(run, action, id);
    hide Run, FailedSincePost, LastSent, PostCount;
  }

  lemma NoPostNoEntry(run: seq<Action>, id: BatchId)
    requires id !in Run(EMPTY, run).rows && Remembers(run, id)
    ensures LastSent(Run(EMPTY, run).log, id).None?
  {
  }

  lemma WorkRemembers(run: seq<Action>, action: Action, id: BatchId)
    requires Remembers(run, id) && HarmlessAction(run, action, id) && Works(Run(EMPTY, run).rows, action, id)
    ensures Remembers(run + [action], id)
  {
    RunKeeps(run);
    RunSnoc(run, action);
    var before := Run(EMPTY, run);
    hide Run, FailedSincePost, LastSent, PostCount, SyncLocked, Harmless;
    WorkStep(before, action, id);
    var held := Held(before.rows, action);
    var effect := SyncLocked(before.rows, id, held, action.attempt);
    AnyWork(before.rows, id, held, action.attempt);
    LastSentMore(before.log, effect.log, id);
    hide Works, Step, Held;
    if SentIn(effect.log).None? {
      if Bound(run, id) {
        if before.rows[id].status.Failed? {
          FailedNow(run, id);
        }
        var last := LastSent(before.log, id).value;
        HarmlessCarries(before.rows, id, held, action.attempt, last.request, last.remoteId);
      }
      StillRemembers(run, action, id);
    }
  }

  /** An action that does not work on the batch leaves its row, but for an operator's finding. */
  lemma OtherAction(state: Effect, action: Action, id: BatchId)
    requires Inv(state) && id in state.rows && !Works(state.rows, action, id)
    ensures var next := Step(state, action);
            && id in next.rows && next.rows[id].kind == state.rows[id].kind
            && next.rows[id].request == state.rows[id].request && next.rows[id].remoteId == state.rows[id].remoteId
            && LastSent(next.log, id) == LastSent(state.log, id) && PostCount(next.log, id) == PostCount(state.log, id)
  {
    hide LastSent, PostCount, Uncertain, SyncLocked;
    if !Admissible(state.rows, action) {
    } else if action.Check? {
      LastSentMore(state.log, ReconcileEffect(state.rows, action.id, action.imported, action.referenced).log, id);
    } else if action.Sync? {
      if Finished(state.rows[action.id].status) || Reviewing(state.rows) {
        IdleStep(state, action);
      } else {
        var target := Target(action);
        WorkStep(state, action, target);
        AnyWork(state.rows, target, Held(state.rows, action), action.attempt);
        LastSentMore(state.log, SyncLocked(state.rows, target, Held(state.rows, action), action.attempt).log, id);
      }
    }
  }

  lemma UnknownAction(state: Effect, action: Action, id: BatchId)
    requires Inv(state) && id !in state.rows
    ensures LastSent(Step(state, action).log, id) == LastSent(state.log, id)
    ensures PostCount(Step(state, action).log, id) == PostCount(state.log, id)
  {
    hide LastSent, PostCount, Uncertain, SyncLocked;
    if !Admissible(state.rows, action) {
    } else if action.Check? {
      LastSentMore(state.log, ReconcileEffect(state.rows, action.id, action.imported, action.referenced).log, id);
    } else if action.Sync? {
      if Finished(state.rows[action.id].status) || Reviewing(state.rows) {
        IdleStep(state, action);
      } else {
        var target := Target(action);
        WorkStep(state, action, target);
        AnyWork(state.rows, target, Held(state.rows, action), action.attempt);
        LastSentMore(state.log, SyncLocked(state.rows, target, Held(state.rows, action), action.attempt).log, id);
      }
    }
  }

  lemma {:induction false} RunRemembers(run: seq<Action>, id: BatchId)
    requires HarmlessFrom(run, 0, id)
    ensures Remembers(run, id)
  {
    if run != [] {
      var init, action := run[..|run| - 1], run[|run| - 1];
      assert run == init + [action];
      hide HarmlessAction, Remembers;
      RunRemembers(init, id);
      StepRemembers(init, action, id);
    }
  }

  lemma StepRemembers(run: seq<Action>, action: Action, id: BatchId)
    requires Remembers(run, id) && HarmlessAction(run, action, id)
    ensures Remembers(run + [action], id)
  {
    hide Run, HarmlessAction;
    var before := Run(EMPTY, run);
    RunKeeps(run);
    RunSnoc(run, action);
    hide Step, Inv, LastSent, PostCount;
    if Works(before.rows, action, id) {
      hide Remembers, Works;
      WorkRemembers(run, action, id);
    } else if id in before.rows {
      OtherAction(before, action, id);
      hide Works, Remembers;
      StillRemembers(run, action, id);
    } else {
      NoPostNoEntry(run, id);
      UnknownAction(before, action, id);
    }
  }

  // ---------------------------------------------------------------- consecutive posts

  /** The last action of the run is the first post of the batch since position `from`; the batch was not FAILED before it. */
  ghost predicate NextPost(run: seq<Action>, from: nat, id: BatchId) {
    && from < |run|
    && Bound(run[..|run| - 1], id)
    && PostCount(Run(EMPTY, run[..|run| - 1]).log, id) == PostCount(Run(EMPTY, run[..from]).log, id)
    && PostCount(Run(EMPTY, run).log, id) > PostCount(Run(EMPTY, run[..|run| - 1]).log, id)
  }

  /** That post carries another request or REMOTEID than the one before it. */
  ghost predicate Differs(run: seq<Action>, from: nat, id: BatchId)
    requires from <= |run|
  {
    var first, second := LastSent(Run(EMPTY, run[..from]).log, id), LastSent(Run(EMPTY, run).log, id);
    first.Some? && first.value.Sent? && second.Some? && second.value.Sent?
    && (second.value.request != first.value.request || second.value.remoteId != first.value.remoteId)
  }

  /** The post that the last action of a harmless run makes repeats the one before it. */
  lemma FrozenStep(run: seq<Action>, action: Action, id: BatchId)
    requires Remembers(run, id) && Bound(run, id) && HarmlessAction(run, action, id)
    requires PostCount(Run(EMPTY, run + [action]).log, id) > PostCount(Run(EMPTY, run).log, id)
    ensures var first, second := LastSent(Run(EMPTY, run).log, id), LastSent(Run(EMPTY, run + [action]).log, id);
            && first.Some? && second.Some? && first.value.Sent? && second.value.Sent?
            && second.value.request == first.value.request && second.value.remoteId == first.value.remoteId
  {
    RunKeeps(run);
    RunSnoc(run, action);
    var before := Run(EMPTY, run);
    hide Run, FailedSincePost, LastSent, PostCount, SyncLocked, Harmless;
    if Works(before.rows, action, id) {
      WorkStep(before, action, id);
      var held := Held(before.rows, action);
      var effect := SyncLocked(before.rows, id, held, action.attempt);
      AnyWork(before.rows, id, held, action.attempt);
      LastSentMore(before.log, effect.log, id);
      hide Works, Step, Held;
      if before.rows[id].status.Failed? {
        FailedNow(run, id);
      }
      var last := LastSent(before.log, id).value;
      HarmlessCarries(before.rows, id, held, action.attempt, last.request, last.remoteId);
    } else {
      hide Inv;
      OtherAction(before, action, id);
    }
  }

  lemma {:induction false} SameLastSent(log: seq<Entry>, more: seq<Entry>, id: BatchId)
    requires log <= more && PostCount(more, id) == PostCount(log, id)
    ensures LastSent(more, id) == LastSent(log, id)
    decreases |more|
  {
    if |more| > |log| {
      var init := more[..|more| - 1];
      PostCountGrows(log, init, id);
      SameLastSent(log, init, id);
    } else {
      assert more == log;
    }
  }

  lemma {:induction false} PostCountGrows(log: seq<Entry>, more: seq<Entry>, id: BatchId)
    requires log <= more
    ensures PostCount(log, id) <= PostCount(more, id)
    decreases |more|
  {
    if |more| > |log| {
      PostCountGrows(log, more[..|more| - 1], id);
    } else {
      assert more == log;
    }
  }

  lemma {:induction false} RunLog(run: seq<Action>, k: nat)
    requires k <= |run|
    ensures Run(EMPTY, run[..k]).log <= Run(EMPTY, run).log
    decreases |run|
  {
    hide Step;
    if k < |run| {
      var init := run[..|run| - 1];
      assert init[..k] == run[..k];
      RunLog(init, k);
      StepLog(Run(EMPTY, init), run[|run| - 1]);
    } else {
      assert run[..k] == run;
    }
  }

  /**
   In a run without harmful calls two consecutive posts of a batch carry the same request and REMOTEID,
   unless the batch was FAILED in between. Objects may be stale in every other way.
   */
  lemma FrozenRetries(run: seq<Action>, from: nat, id: BatchId)
    requires HarmlessFrom(run, 0, id) && NextPost(run, from, id)
    ensures !Differs(run, from, id)
  {
    var init, action := run[..|run| - 1], run[|run| - 1];
    assert run == init + [action];
    assert init[..from] == run[..from];
    hide HarmlessAction, Remembers, Run, PostCount, LastSent;
    RunRemembers(init, id);
    FrozenStep(init, action, id);
    RunLog(init, from);
    SameLastSent(Run(EMPTY, run[..from]).log, Run(EMPTY, init).log, id);
  }

  // ---------------------------------------------------------------- the converse

  /** The row that the steps below start from, bound to this last post. */
  ghost predicate BoundTo(run: seq<Action>, id: BatchId, last: Entry) {
    var state := Run(EMPTY, run);
    && Bound(run, id) && LastSent(state.log, id) == Some(last) && last.Sent?
    && id in state.rows && state.rows[id].kind.Voucher? && !state.rows[id].status.Failed?
  }

  lemma BoundRow(run: seq<Action>, id: BatchId)
    requires Remembers(run, id) && Bound(run, id)
    ensures BoundTo(run, id, LastSent(Run(EMPTY, run).log, id).value)
    ensures var state := Run(EMPTY, run);
            var last := LastSent(state.log, id).value;
            state.rows[id].request == Some(last.request) && state.rows[id].remoteId == Some(last.remoteId)
  {
    var state := Run(EMPTY, run);
    hide Run, FailedSincePost, LastSent;
    if state.rows[id].status.Failed? {
      FailedNow(run, id);
    }
  }

  /** An attempt that Tally refuses, and one while Tally is switched off; both would build anew. */
  function RefusedAttempt(last: Entry): Attempt
    requires last.Sent?
  {
    Attempt(0, last.remoteId + 1, Built(last.request + 1), true, Refused, false, Survives)
  }

  function DisabledAttempt(last: Entry): Attempt
    requires last.Sent?
  {
    RefusedAttempt(last).(enabled := false)
  }

  /** A call that does not post keeps the batch bound to its last post, unless it is FAILED after it. */
  lemma StillBound(run: seq<Action>, action: Action, id: BatchId, last: Entry)
    requires BoundTo(run, id, last)
    requires var before, after := Run(EMPTY, run), Run(EMPTY, run + [action]);
             && LastSent(after.log, id) == LastSent(before.log, id) && PostCount(after.log, id) == PostCount(before.log, id)
             && id in after.rows && after.rows[id].kind.Voucher? && !after.rows[id].status.Failed?
    ensures BoundTo(run + [action], id, last)
  {
    FailedSnoc(run, action, id);
    hide Run, FailedSincePost, LastSent, PostCount;
  }

  /** What a posting call sends: what its object holds, or else what it builds and names. */
  lemma PostingCall(run: seq<Action>, action: Action, id: BatchId, last: Entry)
    requires BoundTo(run, id, last) && Works(Run(EMPTY, run).rows, action, id) && action.attempt == RefusedAttempt(last)
    requires var rows := Run(EMPTY, run).rows; Held(rows, action).status == rows[id].status && !rows[id].status.Syncing?
    ensures var before, after := Run(EMPTY, run), Run(EMPTY, run + [action]);
            var held := Held(before.rows, action);
            && PostCount(after.log, id) == PostCount(before.log, id) + 1
            && LastSent(after.log, id)
               == Some(Sent(id, if held.remoteId.Some? then held.remoteId.value else last.remoteId + 1,
                            if held.request.Some? then held.request.value else last.request + 1, Refused, false))
  {
    RunKeeps(run);
    RunSnoc(run, action);
    var before := Run(EMPTY, run);
    hide Run, LastSent, PostCount, FailedSincePost;
    WorkStep(before, action, id);
    var effect := SyncLocked(before.rows, id, Held(before.rows, action), action.attempt);
    LastSentMore(before.log, effect.log, id);
  }

  lemma PostingCallDiffers(run: seq<Action>, action: Action, from: nat, id: BatchId, last: Entry)
    requires from <= |run| && BoundTo(run, id, last) && Works(Run(EMPTY, run).rows, action, id) && action.attempt == RefusedAttempt(last)
    requires var rows := Run(EMPTY, run).rows; Held(rows, action).status == rows[id].status && !rows[id].status.Syncing?
    requires var held := Held(Run(EMPTY, run).rows, action);
             held.request != Some(last.request) || held.remoteId != Some(last.remoteId)
    requires PostCount(Run(EMPTY, run).log, id) == PostCount(Run(EMPTY, run[..from]).log, id)
    requires LastSent(Run(EMPTY, run[..from]).log, id) == Some(last)
    ensures NextPost(run + [action], from, id) && Differs(run + [action], from, id)
  {
    PostingCall(run, action, id, last);
    assert (run + [action])[..|run|] == run && (run + [action])[..from] == run[..from];
    hide Run, LastSent, PostCount, FailedSincePost, Works, Held;
  }

  /** A PENDING_SYNC object of a SYNCING row, saved while Tally is off, fills in what it lacks. */
  lemma SilentCall(run: seq<Action>, action: Action, id: BatchId, last: Entry)
    requires Remembers(run, id) && BoundTo(run, id, last) && Works(Run(EMPTY, run).rows, action, id)
    requires action.attempt == DisabledAttempt(last)
    requires var rows := Run(EMPTY, run).rows;
             rows[id].status.Syncing? && Held(rows, action).status.PendingSync? && !Harmless(rows[id], Held(rows, action))
    ensures BoundTo(run + [action], id, last)
    ensures var before, after := Run(EMPTY, run), Run(EMPTY, run + [action]);
            && PostCount(after.log, id) == PostCount(before.log, id)
            && after.rows[id].status.Syncing?
            && (after.rows[id].request != Some(last.request) || after.rows[id].remoteId != Some(last.remoteId))
  {
    RunKeeps(run);
    RunSnoc(run, action);
    BoundRow(run, id);
    var before := Run(EMPTY, run);
    hide Run, LastSent, PostCount, FailedSincePost;
    WorkStep(before, action, id);
    var effect := SyncLocked(before.rows, id, Held(before.rows, action), action.attempt);
    assert effect.log == [];
    LastSentMore(before.log, effect.log, id);
    hide Works, Step, Held, SyncLocked;
    StillBound(run, action, id, last);
  }

  /** A call on the row as it is. */
  function FreshCall(row: Row, id: BatchId, a: Attempt): Action {
    Sync(id, row, None, None, a)
  }

  lemma FreshWorks(state: Effect, id: BatchId, a: Attempt)
    requires Inv(state) && id in state.rows && !Finished(state.rows[id].status)
    requires forall b | b in state.rows && b != id :: !Busy(state.rows[b].status)
    ensures Works(state.rows, FreshCall(state.rows[id], id, a), id)
    ensures Held(state.rows, FreshCall(state.rows[id], id, a)) == state.rows[id]
  {
    hide Uncertain;
  }

  lemma OnlyBusy(run: seq<Action>, id: BatchId)
    requires var rows := Run(EMPTY, run).rows; id in rows && Busy(rows[id].status)
    ensures var rows := Run(EMPTY, run).rows; forall b | b in rows && b != id :: !Busy(rows[b].status)
  {
    RunKeeps(run);
    hide Run, Uncertain;
  }

  /** The next call finds the interrupted import and asks for a review. */
  lemma ReviewCall(run: seq<Action>, id: BatchId, last: Entry) returns (action: Action)
    requires BoundTo(run, id, last) && Run(EMPTY, run).rows[id].status.Syncing?
    ensures BoundTo(run + [action], id, last) && HarmlessAction(run, action, id)
    ensures var before, after := Run(EMPTY, run), Run(EMPTY, run + [action]);
            && PostCount(after.log, id) == PostCount(before.log, id)
            && after.rows == before.rows[id := before.rows[id].(status := ReviewRequired, startedAt := None)]
  {
    RunKeeps(run);
    var before := Run(EMPTY, run);
    var row := before.rows[id];
    var now := if row.startedAt.Some? then row.startedAt.value + SYNC_LEASE_SECONDS else 0;
    action := FreshCall(row, id, RefusedAttempt(last).(now := now));
    RunSnoc(run, action);
    OnlyBusy(run, id);
    hide Run, LastSent, PostCount, FailedSincePost;
    FreshWorks(before, id, action.attempt);
    WorkStep(before, action, id);
    var effect := SyncLocked(before.rows, id, row, action.attempt);
    assert effect.log == [];
    LastSentMore(before.log, effect.log, id);
    hide Works, Step, Held;
    StillBound(run, action, id, last);
  }

  /** The operator does not find the voucher, and the batch may be posted again. */
  lemma AbsentCheck(run: seq<Action>, id: BatchId, last: Entry)
    requires BoundTo(run, id, last) && Run(EMPTY, run).rows[id].status.ReviewRequired?
    ensures var action := Check(id, false, false);
            && BoundTo(run + [action], id, last) && HarmlessAction(run, action, id)
            && var before, after := Run(EMPTY, run), Run(EMPTY, run + [action]);
               && PostCount(after.log, id) == PostCount(before.log, id)
               && after.rows == before.rows[id := before.rows[id].(status := PendingSync, startedAt := None, retryCount := 0)]
  {
    var action := Check(id, false, false);
    RunSnoc(run, action);
    var before := Run(EMPTY, run);
    hide Run, LastSent, PostCount, FailedSincePost;
    LastSentMore(before.log, [FoundAbsent(id)], id);
    StillBound(run, action, id, last);
  }

  /** The calls that follow a harmful one and bring out the difference. */
  lemma LaterDiffers(run: seq<Action>, from: nat, id: BatchId, last: Entry) returns (later: seq<Action>)
    requires from < |run| && BoundTo(run, id, last) && Run(EMPTY, run).rows[id].status.Syncing?
    requires var row := Run(EMPTY, run).rows[id]; row.request != Some(last.request) || row.remoteId != Some(last.remoteId)
    requires PostCount(Run(EMPTY, run).log, id) == PostCount(Run(EMPTY, run[..from]).log, id)
    requires LastSent(Run(EMPTY, run[..from]).log, id) == Some(last)
    ensures HarmlessFrom(run + later, |run|, id)
    ensures NextPost(run + later, from, id) && Differs(run + later, from, id)
  {
    hide Run, LastSent, PostCount, FailedSincePost, HarmlessAction, HarmlessFrom, NextPost, Differs;
    assert HarmlessFrom(run, |run|, id) by { NothingHarmful(run, id); }
    OnlyBusy(run, id);
    var review := ReviewCall(run, id, last);
    var run1 := run + [review];
    HarmlessSnoc(run, review, |run|, id);
    var check := Check(id, false, false);
    AbsentCheck(run1, id, last);
    var run2 := run1 + [check];
    HarmlessSnoc(run1, check, |run|, id);
    assert run1[..from] == run[..from] && run2[..from] == run[..from];
    var state := Run(EMPTY, run2);
    RunKeeps(run2);
    var post := FreshCall(state.rows[id], id, RefusedAttempt(last));
    FreshWorks(state, id, RefusedAttempt(last));
    PostingCallDiffers(run2, post, from, id, last);
    HarmlessSnoc(run2, post, |run|, id) by { FreshHarmless(run2, id, RefusedAttempt(last)); }
    later := [review, check, post];
    assert run + later == run2 + [post];
  }

  lemma NothingHarmful(run: seq<Action>, id: BatchId)
    ensures HarmlessFrom(run, |run|, id)
  {
  }

  lemma FreshHarmless(run: seq<Action>, id: BatchId, a: Attempt)
    requires var rows := Run(EMPTY, run).rows; id in rows && Held(rows, FreshCall(rows[id], id, a)) == rows[id]
    ensures HarmlessAction(run, FreshCall(Run(EMPTY, run).rows[id], id, a), id)
  {
    hide Run, Bound, Works;
  }

  /** After this run some attempt of the call, and harmless calls after it, lead to a post that differs from the last. */
  ghost predicate CanDiffer(run: seq<Action>, action: Action, id: BatchId)
    requires action.Sync?
  {
    exists a, later: seq<Action> :: Leads(run, action.(attempt := a), later, id)
  }

  ghost predicate Leads(run: seq<Action>, call: Action, later: seq<Action>, id: BatchId) {
    && HarmlessFrom(run + [call] + later, |run| + 1, id)
    && NextPost(run + [call] + later, |run|, id)
    && Differs(run + [call] + later, |run|, id)
  }

  /** Only the attempt differs, so the call works on the same object. */
  lemma SameObject(rows: Rows, action: Action, a: Attempt, id: BatchId)
    requires Works(rows, action, id)
    ensures Works(rows, action.(attempt := a), id) && Held(rows, action.(attempt := a)) == Held(rows, action)
  {
  }

  lemma HarmfulDiffers(run: seq<Action>, action: Action, id: BatchId)
    requires HarmlessFrom(run, 0, id) && Bound(run, id) && Works(Run(EMPTY, run).rows, action, id)
    requires id in Run(EMPTY, run).rows && !Harmless(Run(EMPTY, run).rows[id], Held(Run(EMPTY, run).rows, action))
    ensures CanDiffer(run, action, id)
  {
    hide Run, LastSent, PostCount, FailedSincePost, HarmlessAction, HarmlessFrom, NextPost, Differs, Step;
    RunRemembers(run, id);
    RunKeeps(run);
    BoundRow(run, id);
    var state := Run(EMPTY, run);
    var last := LastSent(state.log, id).value;
    WorkStep(state, action, id);
    assert run[..|run|] == run;
    if Held(state.rows, action).status == state.rows[id].status {
      var a := RefusedAttempt(last);
      var call := action.(attempt := a);
      SameObject(state.rows, action, a, id);
      hide Works, Held;
      PostingCallDiffers(run, call, |run|, id, last);
      assert HarmlessFrom(run + [call], |run| + 1, id) by { NothingHarmful(run + [call], id); }
      assert run + [call] + [] == run + [call];
      assert Leads(run, action.(attempt := a), [], id);
    } else {
      var a := DisabledAttempt(last);
      var call := action.(attempt := a);
      SameObject(state.rows, action, a, id);
      hide Works, Held;
      SilentCall(run, call, id, last);
      assert (run + [call])[..|run|] == run;
      var later := LaterDiffers(run + [call], |run|, id, last);
      assert Leads(run, action.(attempt := a), later, id);
    }
  }

  lemma {:induction false} HarmlessJoins(run: seq<Action>, middle: nat, id: BatchId)
    requires middle <= |run| && HarmlessFrom(run[..middle], 0, id) && HarmlessFrom(run, middle, id)
    ensures HarmlessFrom(run, 0, id)
    decreases |run|
  {
    hide HarmlessAction;
    if |run| > middle {
      assert run[..|run| - 1][..middle] == run[..middle];
      HarmlessJoins(run[..|run| - 1], middle, id);
    } else {
      assert run[..middle] == run;
    }
  }

  lemma HarmlessCannotDiffer(run: seq<Action>, action: Action, id: BatchId, a: Attempt, later: seq<Action>)
    requires HarmlessFrom(run, 0, id) && Works(Run(EMPTY, run).rows, action, id)
    requires id in Run(EMPTY, run).rows && Harmless(Run(EMPTY, run).rows[id], Held(Run(EMPTY, run).rows, action))
    ensures !Leads(run, action.(attempt := a), later, id)
  {
    var call := action.(attempt := a);
    var whole := run + [call] + later;
    if Leads(run, call, later, id) {
      SameObject(Run(EMPTY, run).rows, action, a, id);
      hide Run, LastSent, PostCount, FailedSincePost, NextPost, Differs, HarmlessFrom, Works, Held, Harmless;
      assert HarmlessAction(run, call, id);
      hide HarmlessAction;
      HarmlessSnoc(run, call, 0, id);
      assert whole[..|run| + 1] == run + [call];
      HarmlessJoins(whole, |run| + 1, id);
      FrozenRetries(whole, |run|, id);
    }
  }

  /**
   The exact condition, over runs. A batch was posted and not FAILED since, and a call works on it. Then some
   answer to the call, followed by calls on harmless objects, leads to a next post that differs from the
   last one, if and only if the object of the call is not harmless.
   */
  lemma FrozenExactly(run: seq<Action>, action: Action, id: BatchId)
    requires HarmlessFrom(run, 0, id) && Bound(run, id) && Works(Run(EMPTY, run).rows, action, id)
    requires id in Run(EMPTY, run).rows
    ensures CanDiffer(run, action, id) <==> !Harmless(Run(EMPTY, run).rows[id], Held(Run(EMPTY, run).rows, action))
  {
    var rows := Run(EMPTY, run).rows;
    var held := Held(rows, action);
    hide Run, Bound, Works, Held, Harmless, HarmlessFrom, Leads;
    if Harmless(rows[id], held) {
      forall a, later: seq<Action> ensures !Leads(run, action.(attempt := a), later, id) {
        HarmlessCannotDiffer(run, action, id, a, later);
      }
    } else {
      HarmfulDiffers(run, action, id);
    }
  }

  // ---------------------------------------------------------------- the REMOTEID

  /** The object cannot change the REMOTEID of a batch that has one. */
  predicate KeepsName(row: Row, held: Row) {
    held.status.Syncing?
    || (held.remoteId.Some? && (held.status == row.status ==> held.remoteId == row.remoteId))
  }

  /** Whatever the call meets, the REMOTEID stays if and only if the object holds it, or posts nothing and has one. */
  lemma NameKeptExactly(rows: Rows, id: BatchId, held: Row, remoteId: RemoteId)
    requires id in rows && Loaded(rows[id], held) && rows[id].kind.Voucher? && rows[id].remoteId == Some(remoteId)
    ensures (forall a :: SyncLocked(rows, id, held, a).rows[id].remoteId == Some(remoteId)) <==> KeepsName(rows[id], held)
  {
    if KeepsName(rows[id], held) {
      forall a ensures SyncLocked(rows, id, held, a).rows[id].remoteId == Some(remoteId) {
        NameStays(rows, id, held, remoteId, a);
      }
    } else {
      var a := Attempt(0, remoteId + 1, Built(0), held.status == rows[id].status, Refused, false, Survives);
      assert SyncLocked(rows, id, held, a).rows[id].remoteId != Some(remoteId);
    }
  }

  lemma NameStays(rows: Rows, id: BatchId, held: Row, remoteId: RemoteId, a: Attempt)
    requires id in rows && Loaded(rows[id], held) && rows[id].remoteId == Some(remoteId) && KeepsName(rows[id], held)
    ensures SyncLocked(rows, id, held, a).rows[id].remoteId == Some(remoteId)
  {
    hide Classify, Settled, LeaseHeld;
  }

  /** Every call on the batch keeps its REMOTEID. */
  ghost predicate NamesKept(run: seq<Action>, id: BatchId) {
    run == [] || (NamesKept(run[..|run| - 1], id) && KeepsNameAction(Run(EMPTY, run[..|run| - 1]).rows, run[|run| - 1], id))
  }

  ghost predicate KeepsNameAction(rows: Rows, action: Action, id: BatchId) {
    Works(rows, action, id) && id in rows && rows[id].remoteId.Some? ==> KeepsName(rows[id], Held(rows, action))
  }

  /** The row has the REMOTEID of the last post. */
  ghost predicate PostedName(state: Effect, id: BatchId) {
    var last := LastSent(state.log, id);
    last.Some? ==> last.value.Sent? && id in state.rows && state.rows[id].remoteId == Some(last.value.remoteId)
  }

  lemma NameStep(state: Effect, action: Action, id: BatchId)
    requires Inv(state) && PostedName(state, id) && KeepsNameAction(state.rows, action, id)
    ensures PostedName(Step(state, action), id)
    ensures var first, second := LastSent(state.log, id), LastSent(Step(state, action).log, id);
            first.Some? ==> second.Some? && second.value.Sent? && first.value.Sent? && second.value.remoteId == first.value.remoteId
  {
    hide LastSent, SyncLocked, Inv;
    if Works(state.rows, action, id) {
      WorkStep(state, action, id);
      var held := Held(state.rows, action);
      AnyWork(state.rows, id, held, action.attempt);
      LastSentMore(state.log, SyncLocked(state.rows, id, held, action.attempt).log, id);
      hide Works, Step, Held;
      if state.rows[id].remoteId.Some? {
        NameStays(state.rows, id, held, state.rows[id].remoteId.value, action.attempt);
      }
    } else if id in state.rows {
      OtherAction(state, action, id);
    } else {
      UnknownAction(state, action, id);
    }
  }

  lemma {:induction false} RunPostsName(run: seq<Action>, id: BatchId)
    requires NamesKept(run, id)
    ensures PostedName(Run(EMPTY, run), id)
  {
    if run != [] {
      var init := run[..|run| - 1];
      RunPostsName(init, id);
      RunKeeps(init);
      hide Step, KeepsNameAction, PostedName, Inv;
      NameStep(Run(EMPTY, init), run[|run| - 1], id);
    }
  }

  /**
   When every call on the batch keeps its REMOTEID, all posts of the batch carry the same one, also when the
   batch was FAILED in between and its request was built anew.
   */
  lemma {:induction false} OneRemoteId(run: seq<Action>, from: nat, id: BatchId)
    requires NamesKept(run, id) && from <= |run|
    ensures var first, second := LastSent(Run(EMPTY, run[..from]).log, id), LastSent(Run(EMPTY, run).log, id);
            first.Some? ==> second.Some? && second.value.Sent? && first.value.Sent? && second.value.remoteId == first.value.remoteId
    decreases |run|
  {
    if from < |run| {
      var init := run[..|run| - 1];
      assert init[..from] == run[..from];
      OneRemoteId(init, from, id);
      RunPostsName(init, id);
      RunKeeps(init);
      hide Step, KeepsNameAction, PostedName, Inv;
      NameStep(Run(EMPTY, init), run[|run| - 1], id);
    } else {
      assert run[..from] == run;
      RunPostsName(run, id);
    }
  }

  // ---------------------------------------------------------------- two runs that differ

  /** A call of a console or worker whose attempt Tally refuses, and one while Tally is switched off. */
  function RefusedCall(id: BatchId, loaded: Row, request: Request): Action {
    Sync(id, loaded, None, None, Attempt(0, 0, Built(request), true, Refused, false, Survives))
  }

  function DisabledCall(id: BatchId, loaded: Row, request: Request): Action {
    Sync(id, loaded, None, None, Attempt(0, 0, Built(request), false, Refused, false, Survives))
  }

  /** One batch, pending, with its REMOTEID. */
  ghost predicate Alone(state: Effect, id: BatchId, remoteId: RemoteId, retryCount: nat, request: Option<Request>) {
    && state.rows.Keys == {id}
    && var row := state.rows[id];
       && row.kind.Voucher? && row.status.PendingSync? && row.remoteId == Some(remoteId)
       && row.retryCount == retryCount && row.request == request
  }

  lemma RefusedStep(state: Effect, id: BatchId, loaded: Row, remoteId: RemoteId, request: Request)
    requires state.rows.Keys == {id} && state.rows[id].kind.Voucher? && state.rows[id].status.PendingSync?
    requires loaded.kind.Voucher? && loaded.status.PendingSync? && loaded.remoteId == Some(remoteId)
    requires loaded.retryCount <= 1
    ensures var posted := if loaded.request.Some? then loaded.request.value else request;
            var next := Step(state, RefusedCall(id, loaded, request));
            && Alone(next, id, remoteId, loaded.retryCount + 1, Some(posted))
            && next.log == state.log + [Sent(id, remoteId, posted, Refused, false), Recorded(id, Refused)]
  {
    assert !Reviewing(state.rows);
    assert Found(state.rows, id, None);
  }

  lemma DisabledStep(state: Effect, id: BatchId, loaded: Row, remoteId: RemoteId, request: Request)
    requires request > 0 && Alone(state, id, remoteId, 1, Some(request - 1))
    requires loaded.kind.Voucher? && loaded.status.PendingSync? && loaded.remoteId == Some(remoteId)
    requires loaded.retryCount == 0 && loaded.request.None?
    ensures var next := Step(state, DisabledCall(id, loaded, request));
            Alone(next, id, remoteId, 1, Some(request)) && next.log == state.log
  {
    assert !Reviewing(state.rows);
    assert Found(state.rows, id, None);
  }

  lemma RunFour(x: Action, y: Action, z: Action, w: Action)
    ensures Run(EMPTY, [x]) == Step(EMPTY, x)
    ensures Run(EMPTY, [x, y]) == Step(Step(EMPTY, x), y)
    ensures Run(EMPTY, [x, y, z]) == Step(Step(Step(EMPTY, x), y), z)
    ensures Run(EMPTY, [x, y, z, w]) == Step(Step(Step(Step(EMPTY, x), y), z), w)
  {
    hide Step;
    assert [x][..0] == [] && [x, y][..1] == [x] && [x, y, z][..2] == [x, y] && [x, y, z, w][..3] == [x, y, z];
  }

  lemma NeverFailed(x: Action, y: Action, z: Action, id: BatchId)
    requires forall run | run in [[x], [x, y], [x, y, z]] :: var rows := Run(EMPTY, run).rows; id in rows ==> !rows[id].status.Failed?
    ensures !FailedSincePost([x, y], id) && !FailedSincePost([x, y, z], id)
  {
    assert Run(EMPTY, []) == EMPTY;
    hide Run, PostCount;
    var two, three := [x, y], [x, y, z];
    forall k: nat | k <= 2 ensures !FailedThen(two, k, id) {
      assert two[..k] == (if k == 0 then [] else if k == 1 then [x] else two);
    }
    forall k: nat | k <= 3 ensures !FailedThen(three, k, id) {
      assert three[..k] == (if k == 0 then [] else if k == 1 then [x] else if k == 2 then two else three);
    }
  }

  /**
   A console retry that loaded the batch before the worker's refused attempt posts another request, although
   the batch was never FAILED.
   */
  lemma StaleRetryDiffers() returns (loaded: Row, enqueue: Action, worker: Action, console: Action)
    ensures enqueue == Enqueue(1, loaded) && worker == RefusedCall(1, loaded, 10) && console == RefusedCall(1, loaded, 11)
    ensures Run(EMPTY, [enqueue, worker, console]).log
            == [Sent(1, 5, 10, Refused, false), Recorded(1, Refused), Sent(1, 5, 11, Refused, false), Recorded(1, Refused)]
    ensures !FailedSincePost([enqueue, worker], 1)
  {
    loaded := Row(Voucher, 0, PendingSync, 0, None, Some(5), None, None);
    enqueue, worker, console := Enqueue(1, loaded), RefusedCall(1, loaded, 10), RefusedCall(1, loaded, 11);
    RunFour(enqueue, worker, console, console);
    var s1 := Step(EMPTY, enqueue);
    assert Alone(s1, 1, 5, 0, None) && s1.log == [];
    hide Step, RefusedCall, Run;
    RefusedStep(s1, 1, loaded, 5, 10);
    var s2 := Step(s1, worker);
    RefusedStep(s2, 1, loaded, 5, 11);
    NeverFailed(enqueue, worker, console, 1);
  }

  /**
   A stale call that posts nothing, because Tally is switched off, replaces the frozen request. The next call
   works on the row as it is, and posts another request than the last one, although the batch was never FAILED.
   */
  lemma StaleSilentCallDiffers() returns (loaded: Row, enqueue: Action, worker: Action, console: Action, retry: Action)
    ensures enqueue == Enqueue(1, loaded) && worker == RefusedCall(1, loaded, 10) && console == DisabledCall(1, loaded, 11)
    ensures var rows := Run(EMPTY, [enqueue, worker, console]).rows; 1 in rows && retry == RefusedCall(1, rows[1], 12)
    ensures Run(EMPTY, [enqueue, worker, console]).log == Run(EMPTY, [enqueue, worker]).log
    ensures Run(EMPTY, [enqueue, worker, console, retry]).log
            == [Sent(1, 5, 10, Refused, false), Recorded(1, Refused), Sent(1, 5, 11, Refused, false), Recorded(1, Refused)]
    ensures !FailedSincePost([enqueue, worker, console], 1)
  {
    loaded := Row(Voucher, 0, PendingSync, 0, None, Some(5), None, None);
    enqueue, worker, console := Enqueue(1, loaded), RefusedCall(1, loaded, 10), DisabledCall(1, loaded, 11);
    RunFour(enqueue, worker, console, console);
    var s1 := Step(EMPTY, enqueue);
    assert Alone(s1, 1, 5, 0, None) && s1.log == [];
    hide Step, RefusedCall, DisabledCall, Run, FailedSincePost;
    RefusedStep(s1, 1, loaded, 5, 10);
    var s2 := Step(s1, worker);
    assert s2.log == [Sent(1, 5, 10, Refused, false), Recorded(1, Refused)];
    DisabledStep(s2, 1, loaded, 5, 11);
    NeverFailed(enqueue, worker, console, 1);
    retry := RefusedCall(1, Step(s2, console).rows[1], 12);
    LastCall(Step(s2, console), s2.log, retry);
    RunFour(enqueue, worker, console, retry);
  }

  lemma LastCall(state: Effect, log: seq<Entry>, retry: Action)
    requires Alone(state, 1, 5, 1, Some(11)) && state.log == log && retry == RefusedCall(1, state.rows[1], 12)
    requires log == [Sent(1, 5, 10, Refused, false), Recorded(1, Refused)]
    ensures Step(state, retry).log
            == [Sent(1, 5, 10, Refused, false), Recorded(1, Refused), Sent(1, 5, 11, Refused, false), Recorded(1, Refused)]
  {
    hide Step, RefusedCall;
    RefusedStep(state, 1, state.rows[1], 5, 12);
  }
}
