/** Safety of the Tally queue over every run: exclusion and at most one import. */
module TallyQueueTheorems {
  import opened Records
  import opened TallyQueue

  // ---------------------------------------------------------------- Tally's answer

  /** A definite non-import: nothing was sent, or Tally's readable answer shows nothing created or altered. */
  predicate ShowsNotImported(reply: Reply) {
    || reply.BadUrl? || reply.Refused?
    || (reply.Parsed?
        && CountOf(reply.created) + CountOf(reply.altered) < 1
        && (reply.lineErrors || reply.created.Some? || reply.altered.Some?))
  }

  /** A clean import: something was created or altered, and no error of any kind was reported. */
  predicate ShowsImported(reply: Reply) {
    && reply.Parsed? && !reply.lineErrors
    && CountOf(reply.created) + CountOf(reply.altered) >= 1
    && CountOf(reply.exceptions) <= 0 && CountOf(reply.errors) <= 0
  }

  /** Only a definite non-import is a rejection, only a clean import a success; all else is unknown. */
  lemma ClassifyExact(reply: Reply)
    ensures Classify(reply).Rejected? <==> ShowsNotImported(reply)
    ensures Classify(reply).Imported? <==> ShowsImported(reply)
    ensures Classify(reply).Rejected? && Classify(reply).retryable <==> reply.Refused?
  {
  }

  // ---------------------------------------------------------------- runs

  /** What can happen to the queue. A call may work on objects that were loaded earlier. */
  datatype Action =
    | Enqueue(id: BatchId, row: Row)
    | Sync(id: BatchId, copy: Row, other: Option<BatchId>, cached: Option<Row>, attempt: Attempt)
    | Check(id: BatchId, imported: bool, referenced: bool)

  /** A new voucher batch has not been claimed. Ingestion gives it the event id as its REMOTEID. */
  predicate NewRow(row: Row) {
    && (row.status.Draft? || row.status.Submitted? || row.status.PendingSync? || row.status.Closed?)
    && row.retryCount == 0 && row.lastRetryAt.None? && row.request.None? && row.startedAt.None?
  }

  /**
   A session's own batch may be stale in any way. Another batch is held only by the worker's session, which
   loaded it as PENDING_SYNC or SYNCING.
   */
  ghost predicate Admissible(rows: Rows, action: Action) {
    match action
    case Enqueue(id, row) => id !in rows && NewRow(row)
    case Sync(id, copy, other, cached, _) =>
      && id in rows && copy.kind == rows[id].kind && Found(rows, id, other)
      && (other.Some? && cached.Some? ==>
            cached.value.kind == rows[other.value].kind && (cached.value.status.PendingSync? || cached.value.status.Syncing?))
    case Check(id, _, _) => id in rows
  }

  ghost function Step(state: Effect, action: Action): Effect {
    if !Admissible(state.rows, action) then state
    else
      match action
      case Enqueue(id, row) => Effect(state.rows[id := row], state.log)
      case Sync(id, copy, other, cached, a) =>
        var effect := SyncEffect(state.rows, id, copy, other, cached, a);
        Effect(effect.rows, state.log + effect.log)
      case Check(id, imported, referenced) =>
        var effect := ReconcileEffect(state.rows, id, imported, referenced);
        Effect(effect.rows, state.log + effect.log)
  }

  ghost function Run(state: Effect, actions: seq<Action>): Effect {
    if actions == [] then state else Step(Run(state, actions[..|actions| - 1]), actions[|actions| - 1])
  }

  const EMPTY := Effect(map[], [])

  // ---------------------------------------------------------------- one call, case by case

  /** What one call does to the batch that it works on. */
  datatype Change =
    | Nothing
    | Review
    | Close
    | Keep
    | Claim
    | Settle(to: QueueStatus)

  /** `row` became `next` with these history entries, in one of the ways the code allows. */
  ghost predicate Changes(row: Row, next: Row, log: seq<Entry>, id: BatchId, copy: Row, a: Attempt, change: Change) {
    && next.kind == row.kind
    && match change
       case Nothing => next == row && log == []
       case Review => log == [] && next == row.(status := ReviewRequired, startedAt := next.startedAt) && row.status.Syncing?
       case Close => log == [] && row.kind.SelfClosing? && next.status.Closed?
       case Keep => log == [] && next.status == (if copy.status.PendingSync? then row.status else PendingSync)
                    && !copy.status.Syncing? && !row.kind.SelfClosing?
       case Claim =>
         && row.status == copy.status && Postable(row.status) && next.status.Syncing? && row.kind.Voucher?
         && next.request.Some? && next.remoteId.Some?
         && (log == [] || log == [Sent(id, next.remoteId.value, next.request.value, a.reply, a.imported)])
       case Settle(to) =>
         && row.status == copy.status && Postable(row.status) && next.status == to && row.kind.Voucher?
         && next.request.Some? && next.remoteId.Some?
         && to == Settled(Classify(a.reply), copy.status, next.retryCount)
         && log == (if a.reply.BadUrl? then [] else [Sent(id, next.remoteId.value, next.request.value, a.reply, a.imported)])
                   + [Recorded(id, a.reply)]
  }

  function ChangeOf(rows: Rows, id: BatchId, copy: Row, a: Attempt): Change
    requires id in rows
  {
    if a.death.BeforeCommit? then Nothing
    else if copy.status.Syncing? then (if LeaseHeld(copy, a.now) then Nothing else Review)
    else if copy.kind.SelfClosing? then Close
    else if copy.kind.WithoutVoucher? then Keep
    else
      match RequestFor(copy, a)
      case BuildCrashed => Nothing
      case BuildRejected => Keep
      case Built(_) =>
        if !a.enabled then Keep
        else if rows[id].status != copy.status then Nothing
        else if a.death.AfterClaim? || a.death.AfterPost? then Claim
        else Settle(Settled(Classify(a.reply), copy.status, Named(copy, a).retryCount))
  }

  /** The object a call works on: its status is that of the row, or PENDING_SYNC or SYNCING of a SYNCING row. */
  ghost predicate Loaded(row: Row, copy: Row) {
    && copy.kind == row.kind
    && (copy.status == row.status || (row.status.Syncing? && row.kind.Voucher? && copy.status.PendingSync?))
    && !Finished(row.status)
  }

  lemma LockedChanges(rows: Rows, id: BatchId, copy: Row, a: Attempt)
    requires id in rows && Loaded(rows[id], copy)
    ensures var effect := SyncLocked(rows, id, copy, a);
            && effect.rows.Keys == rows.Keys
            && (forall b | b in rows && b != id :: effect.rows[b] == rows[b])
            && Changes(rows[id], effect.rows[id], effect.log, id, copy, a, ChangeOf(rows, id, copy, a))
  {
    hide Classify, LeaseHeld, Settled;
  }

  // ---------------------------------------------------------------- the invariant

  /** The batch's last post may have been imported without anybody knowing. */
  function Uncertain(log: seq<Entry>, id: BatchId): bool {
    if log == [] then false
    else
      match log[|log| - 1]
      case Sent(b, _, _, _, _) => if b == id then true else Uncertain(log[..|log| - 1], id)
      case Recorded(b, reply) => if b == id && ShowsNotImported(reply) then false else Uncertain(log[..|log| - 1], id)
      case FoundAbsent(b) => if b == id then false else Uncertain(log[..|log| - 1], id)
      case FoundPresent(_) => Uncertain(log[..|log| - 1], id)
  }

  predicate Postable(status: QueueStatus) {
    status.Draft? || status.Submitted? || status.PendingSync? || status.Failed?
  }

  predicate Busy(status: QueueStatus) {
    status.Syncing? || status.ReviewRequired?
  }

  /** At most one batch is being imported or awaits review. */
  ghost predicate Exclusive(rows: Rows) {
    forall a, b | a in rows && b in rows && Busy(rows[a].status) && Busy(rows[b].status) :: a == b
  }

  ghost predicate Known(rows: Rows, log: seq<Entry>) {
    forall id | Uncertain(log, id) :: id in rows && !Postable(rows[id].status)
  }

  ghost predicate OnlyVouchersClaimed(rows: Rows) {
    forall id | id in rows && (rows[id].status.Syncing? || rows[id].status.ReviewRequired?) :: rows[id].kind.Voucher?
  }

  ghost predicate Inv(state: Effect) {
    Exclusive(state.rows) && Known(state.rows, state.log) && OnlyVouchersClaimed(state.rows)
  }

  lemma UncertainOne(log: seq<Entry>, e: Entry, id: BatchId)
    ensures Uncertain(log + [e], id)
            == (match e
                case Sent(b, _, _, _, _) => b == id || Uncertain(log, id)
                case Recorded(b, reply) => !(b == id && ShowsNotImported(reply)) && Uncertain(log, id)
                case FoundAbsent(b) => b != id && Uncertain(log, id)
                case FoundPresent(_) => Uncertain(log, id))
  {
    assert (log + [e])[..|log|] == log;
  }

  /** The entries of one call: a post, a recorded answer, or both, of one batch. */
  predicate CallEntries(more: seq<Entry>, id: BatchId) {
    && |more| <= 2
    && (forall k :: 0 <= k < |more| ==> (more[k].Sent? || more[k].Recorded?) && more[k].batch == id)
    && (|more| == 2 ==> more[0].Sent? && more[1].Recorded?)
  }

  /** The call posted and did not record that nothing was imported. */
  predicate LeavesUncertain(more: seq<Entry>) {
    more != [] && !(more[|more| - 1].Recorded? && ShowsNotImported(more[|more| - 1].reply))
  }

  lemma ChangeEntries(row: Row, next: Row, more: seq<Entry>, id: BatchId, copy: Row, a: Attempt, change: Change)
    requires Changes(row, next, more, id, copy, a, change)
    ensures CallEntries(more, id)
    ensures LeavesUncertain(more) ==> !Postable(next.status)
  {
    ClassifyExact(a.reply);
    hide Classify, ShowsNotImported, ShowsImported;
  }

  lemma UncertainEntries(log: seq<Entry>, more: seq<Entry>, id: BatchId, b: BatchId)
    requires CallEntries(more, id)
    ensures b != id ==> Uncertain(log + more, b) == Uncertain(log, b)
    ensures !Uncertain(log, id) && Uncertain(log + more, id) ==> LeavesUncertain(more)
  {
    hide Uncertain, ShowsNotImported;
    if more == [] {
      assert log + more == log;
    } else {
      UncertainOne(log, more[0], b);
      UncertainOne(log, more[0], id);
      if |more| == 1 {
        assert log + more == log + [more[0]];
      } else {
        UncertainOne(log + [more[0]], more[1], b);
        UncertainOne(log + [more[0]], more[1], id);
        assert log + more == log + [more[0]] + [more[1]];
      }
    }
  }

  /** What the entries of one call leave uncertain. */
  lemma UncertainAfter(log: seq<Entry>, more: seq<Entry>, id: BatchId, row: Row, next: Row, copy: Row, a: Attempt, change: Change, b: BatchId)
    requires Changes(row, next, more, id, copy, a, change) && !Uncertain(log, id)
    ensures b != id ==> Uncertain(log + more, b) == Uncertain(log, b)
    ensures Uncertain(log + more, id) ==> more != [] && !Postable(next.status)
  {
    ChangeEntries(row, next, more, id, copy, a, change);
    hide Changes, Uncertain, CallEntries;
    UncertainEntries(log, more, id, b);
  }

  /** A batch that one call works on keeps the invariant when no other batch is busy. */
  lemma ChangeKeeps(rows: Rows, log: seq<Entry>, next: Rows, more: seq<Entry>, id: BatchId, copy: Row, a: Attempt, change: Change)
    requires Inv(Effect(rows, log)) && id in rows && Loaded(rows[id], copy)
    requires next.Keys == rows.Keys && forall b | b in rows && b != id :: next[b] == rows[b]
    requires Changes(rows[id], next[id], more, id, copy, a, change)
    requires forall b | b in rows && b != id :: !Busy(rows[b].status)
    ensures Inv(Effect(next, log + more))
  {
    hide Settled, Classify;
    if more == [] {
      assert log + more == log;
    }
    forall b | Uncertain(log + more, b) ensures b in next && !Postable(next[b].status) {
      if Uncertain(log, id) {
        assert rows[id].status.Syncing?;
        assert more == [] && !Postable(next[id].status);
      } else {
        UncertainAfter(log, more, id, rows[id], next[id], copy, a, change, b);
      }
    }
    SettledVoucher(rows[id], next[id], more, id, copy, a, change);
  }

  lemma SettledVoucher(row: Row, next: Row, more: seq<Entry>, id: BatchId, copy: Row, a: Attempt, change: Change)
    requires Changes(row, next, more, id, copy, a, change) && Loaded(row, copy)
    requires row.status.Syncing? ==> row.kind.Voucher?
    ensures Busy(next.status) ==> next.kind.Voucher?
  {
  }

  lemma SyncKeeps(rows: Rows, log: seq<Entry>, id: BatchId, copy: Row, other: Option<BatchId>, cached: Option<Row>, a: Attempt)
    requires Inv(Effect(rows, log)) && Admissible(rows, Sync(id, copy, other, cached, a))
    ensures var effect := SyncEffect(rows, id, copy, other, cached, a); Inv(Effect(effect.rows, log + effect.log))
  {
    hide SyncLocked, Known;
    var effect := SyncEffect(rows, id, copy, other, cached, a);
    if Finished(rows[id].status) || Reviewing(rows) {
      assert log + effect.log == log;
    } else {
      var target := if other.Some? then other.value else id;
      var held := if other.Some? then (if cached.Some? then cached.value else rows[target])
                  else if copy.status != rows[id].status then rows[id] else copy;
      LockedChanges(rows, target, held, a);
      ChangeKeeps(rows, log, effect.rows, effect.log, target, held, a, ChangeOf(rows, target, held, a));
    }
  }

  lemma CheckKeeps(rows: Rows, log: seq<Entry>, id: BatchId, imported: bool, referenced: bool)
    requires Inv(Effect(rows, log)) && id in rows
    ensures var effect := ReconcileEffect(rows, id, imported, referenced); Inv(Effect(effect.rows, log + effect.log))
  {
    var effect := ReconcileEffect(rows, id, imported, referenced);
    if effect.log == [] {
      assert log + effect.log == log;
    } else {
      forall b ensures Uncertain(log + effect.log, b) == (Uncertain(log, b) && !(b == id && !imported)) {
        UncertainOne(log, effect.log[0], b);
      }
    }
  }

  lemma EnqueueKeeps(rows: Rows, log: seq<Entry>, id: BatchId, row: Row)
    requires Inv(Effect(rows, log)) && id !in rows && NewRow(row)
    ensures Inv(Effect(rows[id := row], log))
  {
    hide Uncertain;
  }

  lemma StepKeeps(state: Effect, action: Action)
    requires Inv(state)
    ensures Inv(Step(state, action))
  {
    hide Inv, SyncEffect, ReconcileEffect;
    if Admissible(state.rows, action) {
      match action {
        case Enqueue(id, row) => EnqueueKeeps(state.rows, state.log, id, row);
        case Sync(id, copy, other, cached, a) => SyncKeeps(state.rows, state.log, id, copy, other, cached, a);
        case Check(id, imported, referenced) => CheckKeeps(state.rows, state.log, id, imported, referenced);
      }
    }
  }

  lemma {:induction false} RunKeeps(actions: seq<Action>)
    ensures Inv(Run(EMPTY, actions))
  {
    hide Step;
    if actions != [] {
      RunKeeps(actions[..|actions| - 1]);
      StepKeeps(Run(EMPTY, actions[..|actions| - 1]), actions[|actions| - 1]);
    }
  }

  // ---------------------------------------------------------------- queue exclusion

  /** In every reachable state at most one batch is SYNCING or REVIEW_REQUIRED. */
  lemma {:induction false} QueueExclusion(actions: seq<Action>, a: BatchId, b: BatchId)
    requires var rows := Run(EMPTY, actions).rows; a in rows && b in rows && Busy(rows[a].status) && Busy(rows[b].status)
    ensures a == b
  {
    RunKeeps(actions);
    hide Run;
  }

  lemma StepPosts(before: Effect, action: Action, i: nat)
    requires Inv(before)
    requires |before.log| <= i < |Step(before, action).log| && Step(before, action).log[i].Sent?
    ensures var sent := Step(before, action).log[i];
            && sent.batch in before.rows && Postable(before.rows[sent.batch].status)
            && (forall b | b in before.rows :: !Busy(before.rows[b].status))
            && action.Sync? && i == |before.log|
  {
    hide SyncLocked, Uncertain, Known;
    var rows := before.rows;
    match action {
      case Sync(id, copy, other, cached, a) =>
        var effect := SyncEffect(rows, id, copy, other, cached, a);
        assert effect.log != [];
        var target := if other.Some? then other.value else id;
        var held := if other.Some? then (if cached.Some? then cached.value else rows[target])
                    else if copy.status != rows[id].status then rows[id] else copy;
        LockedChanges(rows, target, held, a);
        hide Settled, Classify;
        assert effect.log[i - |before.log|].Sent?;
      case _ =>
    }
  }

  lemma StepLog(state: Effect, action: Action)
    ensures state.log <= Step(state, action).log
  {
    hide SyncEffect, ReconcileEffect;
  }

  /** Entry `i` of the history was written by action `k`, for a postable batch, while no batch was busy. */
  ghost predicate PostedAlone(actions: seq<Action>, k: nat, i: nat) {
    && k < |actions| && i < |Run(EMPTY, actions).log|
    && var before, entry := Run(EMPTY, actions[..k]), Run(EMPTY, actions).log[i];
       && |before.log| == i < |Run(EMPTY, actions[..k + 1]).log|
       && entry.batch in before.rows && Postable(before.rows[entry.batch].status)
       && forall b | b in before.rows :: !Busy(before.rows[b].status)
  }

  /** Every post in the history of a run began for a batch in a postable status, while no batch at all was busy. */
  lemma {:induction false} PostsAlone(actions: seq<Action>, i: nat)
    requires i < |Run(EMPTY, actions).log| && Run(EMPTY, actions).log[i].Sent?
    ensures exists k: nat :: PostedAlone(actions, k, i)
  {
    hide Step, Inv;
    if actions != [] {
      var init, action := actions[..|actions| - 1], actions[|actions| - 1];
      var before := Run(EMPTY, init);
      StepLog(before, action);
      assert actions[..|actions|] == actions;
      if i < |before.log| {
        PostsAlone(init, i);
        var k: nat :| PostedAlone(init, k, i);
        assert init[..k] == actions[..k] && init[..k + 1] == actions[..k + 1];
        assert PostedAlone(actions, k, i);
      } else {
        RunKeeps(init);
        StepPosts(before, action, i);
        assert PostedAlone(actions, |init|, i);
      }
    }
  }

  // ---------------------------------------------------------------- at-most-once posting

  /** Entry `k` clears the post `i`: its recorded answer shows no import, or an operator found it absent. */
  ghost predicate Clears(log: seq<Entry>, i: nat, k: nat)
    requires i < |log| && k < |log| && log[i].Sent?
  {
    || (log[k] == Recorded(log[i].batch, log[i].reply) && ShowsNotImported(log[i].reply))
    || log[k] == FoundAbsent(log[i].batch)
  }

  /** No post of the batch lies strictly between. */
  ghost predicate Consecutive(log: seq<Entry>, i: nat, j: nat) {
    && i < j < |log| && log[i].Sent? && log[j].Sent? && log[i].batch == log[j].batch
    && forall k | i < k < j && log[k].Sent? :: log[k].batch != log[i].batch
  }

  /** A recorded answer is that of the batch's latest post; BadUrl is recorded without a post. */
  ghost predicate RecordsFollow(log: seq<Entry>) {
    forall k | 0 <= k < |log| && log[k].Recorded? && !log[k].reply.BadUrl? ::
      k > 0 && log[k - 1].Sent? && log[k - 1].batch == log[k].batch && log[k - 1].reply == log[k].reply
  }

  /** When BadUrl is recorded the batch was not uncertain. */
  ghost predicate BadUrlsHarmless(log: seq<Entry>) {
    forall k | 0 <= k < |log| && log[k].Recorded? && log[k].reply.BadUrl? :: !Uncertain(log[..k], log[k].batch)
  }

  ghost predicate PostsCleared(log: seq<Entry>) {
    forall k | 0 <= k < |log| && log[k].Sent? :: !Uncertain(log[..k], log[k].batch)
  }

  ghost predicate Orderly(log: seq<Entry>) {
    RecordsFollow(log) && BadUrlsHarmless(log) && PostsCleared(log)
  }

  lemma OrderlyAppend(log: seq<Entry>, more: seq<Entry>, id: BatchId, row: Row, next: Row, copy: Row, a: Attempt, change: Change)
    requires Orderly(log) && Changes(row, next, more, id, copy, a, change) && (more != [] ==> !Uncertain(log, id))
    ensures Orderly(log + more)
  {
    hide Uncertain, Settled, Classify;
    var all := log + more;
    forall k | 0 <= k < |all| ensures k < |log| ==> all[k] == log[k] && all[..k] == log[..k] {
    }
    assert all[..|log|] == log;
  }

  lemma SameOrderly(log: seq<Entry>, e: Entry)
    requires Orderly(log) && (e.FoundPresent? || e.FoundAbsent?)
    ensures Orderly(log + [e])
  {
    hide Uncertain;
    var all := log + [e];
    forall k | 0 <= k < |all| ensures k < |log| ==> all[k] == log[k] && all[..k] == log[..k] {
    }
  }

  lemma SyncOrderly(rows: Rows, log: seq<Entry>, id: BatchId, copy: Row, other: Option<BatchId>, cached: Option<Row>, a: Attempt)
    requires Inv(Effect(rows, log)) && Orderly(log) && Admissible(rows, Sync(id, copy, other, cached, a))
    ensures Orderly(log + SyncEffect(rows, id, copy, other, cached, a).log)
  {
    hide SyncLocked, Orderly, Uncertain;
    var effect := SyncEffect(rows, id, copy, other, cached, a);
    if Finished(rows[id].status) || Reviewing(rows) {
      assert log + effect.log == log;
    } else {
      var target := if other.Some? then other.value else id;
      var held := if other.Some? then (if cached.Some? then cached.value else rows[target])
                  else if copy.status != rows[id].status then rows[id] else copy;
      LockedChanges(rows, target, held, a);
      hide Settled, Classify;
      assert effect.log != [] ==> Postable(rows[target].status);
      OrderlyAppend(log, effect.log, target, rows[target], effect.rows[target], held, a, ChangeOf(rows, target, held, a));
    }
  }

  lemma StepOrderly(state: Effect, action: Action)
    requires Inv(state) && Orderly(state.log)
    ensures Orderly(Step(state, action).log)
  {
    hide Inv, Orderly, SyncEffect;
    if Admissible(state.rows, action) {
      match action {
        case Enqueue(_, _) =>
        case Sync(id, copy, other, cached, a) => SyncOrderly(state.rows, state.log, id, copy, other, cached, a);
        case Check(id, imported, referenced) =>
          var effect := ReconcileEffect(state.rows, id, imported, referenced);
          if effect.log == [] {
            assert state.log + effect.log == state.log;
          } else {
            SameOrderly(state.log, effect.log[0]);
          }
      }
    }
  }

  lemma {:induction false} RunOrderly(actions: seq<Action>)
    ensures Orderly(Run(EMPTY, actions).log)
  {
    hide Step, Inv;
    if actions != [] {
      RunOrderly(actions[..|actions| - 1]);
      RunKeeps(actions[..|actions| - 1]);
      StepOrderly(Run(EMPTY, actions[..|actions| - 1]), actions[|actions| - 1]);
    }
  }

  /** If post `i` is uncertain no longer and the batch was not posted again, some entry cleared it. */
  lemma {:induction false} SomethingCleared(log: seq<Entry>, i: nat, j: nat) returns (k: nat)
    requires i < j <= |log| && log[i].Sent? && !Uncertain(log[..j], log[i].batch)
    requires forall m | i < m < j && log[m].Sent? :: log[m].batch != log[i].batch
    requires RecordsFollow(log) && BadUrlsHarmless(log)
    ensures i < k < j && Clears(log, i, k)
    decreases j
  {
    var id, last := log[i].batch, log[j - 1];
    assert log[..j][..j - 1] == log[..j - 1];
    if j - 1 == i {
      assert false;
    } else if last == FoundAbsent(id) {
      k := j - 1;
    } else if last.Recorded? && last.batch == id && ShowsNotImported(last.reply) {
      if last.reply.BadUrl? {
        k := SomethingCleared(log, i, j - 1);
      } else {
        assert log[j - 2].Sent? && log[j - 2].batch == id;
        assert j - 2 == i;
        k := j - 1;
      }
    } else {
      k := SomethingCleared(log, i, j - 1);
    }
  }

  /**
   At most once: in every run, two consecutive posts of one batch are separated by the committed answer to
   the first, which shows that nothing was imported, or by an operator who found the voucher absent.
   */
  lemma AtMostOncePosting(actions: seq<Action>, i: nat, j: nat)
    requires Consecutive(Run(EMPTY, actions).log, i, j)
    ensures var log := Run(EMPTY, actions).log; exists k :: i < k < j && Clears(log, i, k)
  {
    RunOrderly(actions);
    var log := Run(EMPTY, actions).log;
    hide Run;
    var k := SomethingCleared(log, i, j);
  }

  // ---------------------------------------------------------------- one import

  function Imports(log: seq<Entry>, id: BatchId): nat {
    if log == [] then 0
    else Imports(log[..|log| - 1], id) + (if log[|log| - 1].Sent? && log[|log| - 1].batch == id && log[|log| - 1].imported then 1 else 0)
  }

  /** Tally's answers and the operator's findings are true. */
  ghost predicate Honest(log: seq<Entry>) {
    forall k | 0 <= k < |log| ::
      && (log[k].Sent? && ShowsNotImported(log[k].reply) ==> !log[k].imported)
      && (log[k].Sent? && ShowsImported(log[k].reply) ==> log[k].imported)
      && (log[k].FoundPresent? ==> Imports(log[..k], log[k].batch) > 0)
      && (log[k].FoundAbsent? ==> Imports(log[..k], log[k].batch) == 0)
  }

  lemma HonestPrefix(log: seq<Entry>, k: nat)
    requires Honest(log) && k <= |log|
    ensures Honest(log[..k])
  {
    forall j | 0 <= j < k ensures log[..k][..j] == log[..j] {
    }
  }

  /** With honest answers a batch has at most one import, and none while it is not uncertain. */
  lemma {:induction false} OneImport(log: seq<Entry>, id: BatchId)
    requires Honest(log) && Orderly(log)
    ensures Imports(log, id) <= 1
    ensures !Uncertain(log, id) ==> Imports(log, id) == 0
    decreases |log|
  {
    if log != [] {
      var n := |log| - 1;
      var before, e := log[..n], log[n];
      HonestPrefix(log, n);
      OrderlyPrefix(log, n);
      OneImport(before, id);
      if e.Recorded? && e.batch == id && ShowsNotImported(e.reply) {
        if !e.reply.BadUrl? {
          var m := n - 1;
          assert log[m].Sent? && log[m].batch == id;
          assert !Uncertain(log[..m], id);
          HonestPrefix(log, m);
          OrderlyPrefix(log, m);
          OneImport(log[..m], id);
          assert before[..m] == log[..m];
          assert Imports(before, id) == 0;
        }
      }
    }
  }

  lemma OrderlyPrefix(log: seq<Entry>, k: nat)
    requires Orderly(log) && k <= |log|
    ensures Orderly(log[..k])
  {
    hide Uncertain;
    forall j | 0 <= j < k ensures log[..k][..j] == log[..j] {
    }
  }

  /** The batch is SYNCED only after a post that shows an import, or after an operator found the voucher. */
  ghost predicate SyncedShown(rows: Rows, log: seq<Entry>) {
    forall id | id in rows && rows[id].status.Synced? ::
      exists k :: 0 <= k < |log| && ShowsSynced(log[k], id)
  }

  predicate ShowsSynced(e: Entry, id: BatchId) {
    (e.Sent? && e.batch == id && ShowsImported(e.reply)) || e == FoundPresent(id)
  }

  lemma StillShown(rows: Rows, next: Rows, log: seq<Entry>, more: seq<Entry>)
    requires SyncedShown(rows, log) && next.Keys == rows.Keys
    requires forall id | id in next && next[id].status.Synced? && !rows[id].status.Synced? ::
               exists k :: 0 <= k < |more| && ShowsSynced(more[k], id)
    ensures SyncedShown(next, log + more)
  {
    hide ShowsSynced;
    var all := log + more;
    forall id | id in next && next[id].status.Synced? ensures exists k :: 0 <= k < |all| && ShowsSynced(all[k], id) {
      if rows[id].status.Synced? {
        var k :| 0 <= k < |log| && ShowsSynced(log[k], id);
        assert all[k] == log[k];
      } else {
        var k :| 0 <= k < |more| && ShowsSynced(more[k], id);
        assert all[|log| + k] == more[k];
      }
    }
  }

  lemma SyncShown(rows: Rows, log: seq<Entry>, id: BatchId, copy: Row, other: Option<BatchId>, cached: Option<Row>, a: Attempt)
    requires SyncedShown(rows, log) && OnlyVouchersClaimed(rows) && Admissible(rows, Sync(id, copy, other, cached, a))
    ensures var effect := SyncEffect(rows, id, copy, other, cached, a); SyncedShown(effect.rows, log + effect.log)
  {
    hide SyncLocked, SyncedShown;
    var effect := SyncEffect(rows, id, copy, other, cached, a);
    if Finished(rows[id].status) || Reviewing(rows) {
      assert log + effect.log == log;
    } else {
      var target := if other.Some? then other.value else id;
      var held := if other.Some? then (if cached.Some? then cached.value else rows[target])
                  else if copy.status != rows[id].status then rows[id] else copy;
      LockedChanges(rows, target, held, a);
      ClassifyExact(a.reply);
      hide Classify;
      if effect.rows[target].status.Synced? {
        assert ShowsSynced(effect.log[0], target);
      }
      StillShown(rows, effect.rows, log, effect.log);
    }
  }

  lemma CheckShown(rows: Rows, log: seq<Entry>, id: BatchId, imported: bool, referenced: bool)
    requires SyncedShown(rows, log) && id in rows
    ensures var effect := ReconcileEffect(rows, id, imported, referenced); SyncedShown(effect.rows, log + effect.log)
  {
    hide SyncedShown;
    var effect := ReconcileEffect(rows, id, imported, referenced);
    if effect.rows[id].status.Synced? && !rows[id].status.Synced? {
      assert ShowsSynced(effect.log[0], id);
    }
    StillShown(rows, effect.rows, log, effect.log);
  }

  lemma {:induction false} RunShown(actions: seq<Action>)
    ensures SyncedShown(Run(EMPTY, actions).rows, Run(EMPTY, actions).log)
  {
    hide SyncEffect, ReconcileEffect;
    if actions != [] {
      var before, action := Run(EMPTY, actions[..|actions| - 1]), actions[|actions| - 1];
      RunShown(actions[..|actions| - 1]);
      RunKeeps(actions[..|actions| - 1]);
      if Admissible(before.rows, action) {
        match action {
          case Enqueue(id, row) => hide ShowsSynced;
          case Sync(id, copy, other, cached, a) => SyncShown(before.rows, before.log, id, copy, other, cached, a);
          case Check(id, imported, referenced) => CheckShown(before.rows, before.log, id, imported, referenced);
        }
      }
    }
  }

  lemma {:induction false} ImportsAt(log: seq<Entry>, k: nat, id: BatchId)
    requires k < |log|
    ensures Imports(log[..k], id) <= Imports(log, id)
    ensures log[k].Sent? && log[k].batch == id && log[k].imported ==> Imports(log, id) > 0
  {
    if k < |log| - 1 {
      assert log[..|log| - 1][..k] == log[..k];
      ImportsAt(log[..|log| - 1], k, id);
    }
  }

  /**
   If Tally's answers and the operator's findings are true, every batch is imported at most once, and a
   batch that is SYNCED was imported exactly once.
   */
  lemma ImportedOnce(actions: seq<Action>, id: BatchId)
    requires Honest(Run(EMPTY, actions).log)
    ensures var state := Run(EMPTY, actions);
            && Imports(state.log, id) <= 1
            && (id in state.rows && state.rows[id].status.Synced? ==> Imports(state.log, id) == 1)
  {
    RunOrderly(actions);
    RunShown(actions);
    var state := Run(EMPTY, actions);
    hide Run;
    OneImport(state.log, id);
    if id in state.rows && state.rows[id].status.Synced? {
      var k :| 0 <= k < |state.log| && ShowsSynced(state.log[k], id);
      ImportsAt(state.log, k, id);
    }
  }
}
