/** Which pending batches the worker by itself never posts (app/services/sync_worker.py). */
module TallyStarvation {
  import opened Records
  import opened TallyQueue
  import opened TallyQueueTheorems
  import opened TallyRetryTheorems
  import opened TallyWorker

  // ---------------------------------------------------------------- passes of the worker by itself

  datatype WorkerPass = WorkerPass(now: int, limit: nat, batches: seq<BatchId>, actions: seq<Action>)

  /** Passes one after the other, each over what the query then returns. */
  ghost predicate Passes(start: Effect, passes: seq<WorkerPass>)
    decreases |passes|
  {
    passes == [] || (PassOf(start, passes[0]) && Passes(Run(start, passes[0].actions), passes[1..]))
  }

  ghost predicate PassOf(start: Effect, p: WorkerPass) {
    && IsSelection(start.rows, p.batches, p.now, p.limit)
    && Pass(start, p.batches, p.actions) && Complete(start, p.batches, p.actions)
  }

  ghost function AfterPasses(start: Effect, passes: seq<WorkerPass>): Effect
    decreases |passes|
  {
    if passes == [] then start else AfterPasses(Run(start, passes[0].actions), passes[1..])
  }

  predicate Waiting(row: Row) {
    row.kind.Voucher? && row.status.PendingSync?
  }

  /** A pending voucher without a frozen request; a call for it has to build one, also after earlier tries. */
  predicate Unbuilt(row: Row) {
    Waiting(row) && row.request.None?
  }

  /** A batch is being imported or reviewed. */
  ghost predicate QueueBusy(rows: Rows) {
    exists b | b in rows :: Busy(rows[b].status)
  }

  /** Every call for the batch would have to build its voucher, and the build raises. */
  predicate NeverBuilds(actions: seq<Action>, b: BatchId) {
    forall k :: 0 <= k < |actions| && actions[k].Sync? && actions[k].id == b ==> actions[k].attempt.build.BuildCrashed?
  }

  ghost predicate NeverBuilt(passes: seq<WorkerPass>, b: BatchId) {
    forall k :: 0 <= k < |passes| ==> NeverBuilds(passes[k].actions, b)
  }

  lemma RestNeverBuilt(passes: seq<WorkerPass>, b: BatchId)
    requires passes != [] && NeverBuilt(passes, b)
    ensures NeverBuilds(passes[0].actions, b) && NeverBuilt(passes[1..], b)
  {
    hide NeverBuilds;
    assert forall k :: 0 <= k < |passes[1..]| ==> passes[1..][k] == passes[k + 1];
  }

  // ---------------------------------------------------------------- one call

  /** While a batch is busy a call works on that batch or does nothing, and one is busy after it. */
  lemma BusyStays(state: Effect, action: Action, c: BatchId)
    requires WorkerAction(state.rows, action) && QueueBusy(state.rows)
    requires c in state.rows && state.rows[c].status.PendingSync?
    ensures var next := Step(state, action);
            QueueBusy(next.rows) && c in next.rows && next.rows[c] == state.rows[c] && PostCount(next.log, c) == PostCount(state.log, c)
  {
    hide SyncLocked, PostCount;
    FreshStep(state, action);
    hide Step;
    if !(Finished(state.rows[action.id].status) || Reviewing(state.rows)) {
      var b :| b in state.rows && Busy(state.rows[b].status);
      assert b != action.id ==> Interrupted(state.rows, action.id, b);
      var target := Target(action);
      assert state.rows[target].status.Syncing?;
      FreshFields(state.rows, target, action.attempt);
      var effect := SyncLocked(state.rows, target, state.rows[target], action.attempt);
      LastSentMore(state.log, effect.log, c);
      assert target in effect.rows && Busy(effect.rows[target].status);
    }
  }

  /** A call for another batch leaves the row alone. */
  lemma OtherCall(state: Effect, action: Action, c: BatchId)
    requires WorkerAction(state.rows, action) && action.id != c
    requires c in state.rows && state.rows[c].status.PendingSync?
    ensures var next := Step(state, action);
            c in next.rows && next.rows[c] == state.rows[c] && PostCount(next.log, c) == PostCount(state.log, c)
  {
    hide SyncLocked, PostCount;
    FreshStep(state, action);
    hide Step;
    if !(Finished(state.rows[action.id].status) || Reviewing(state.rows)) {
      var target := Target(action);
      FreshFields(state.rows, target, action.attempt);
      LastSentMore(state.log, SyncLocked(state.rows, target, state.rows[target], action.attempt).log, c);
    }
  }

  /** A call for a batch that never builds raises, unless the queue is busy. */
  lemma RaisingCall(state: Effect, action: Action)
    requires WorkerAction(state.rows, action) && Unbuilt(state.rows[action.id]) && action.attempt.build.BuildCrashed?
    ensures QueueBusy(state.rows) || (Ends(state.rows, action) && Step(state, action) == state)
  {
    if action.other.Some? {
      assert Busy(state.rows[action.other.value].status);
    } else if !Reviewing(state.rows) {
      assert LockedRaises(state.rows[action.id], action.attempt);
      assert state.log + [] == state.log;
    } else {
      var r :| r in state.rows && state.rows[r].status.ReviewRequired?;
      assert Busy(state.rows[r].status);
    }
  }

  lemma CallKnown(state: Effect, action: Action)
    requires WorkerAction(state.rows, action)
    ensures action.Sync? && action.id in state.rows && (action.other.Some? ==> action.other.value in state.rows)
  {
  }

  // ---------------------------------------------------------------- a busy queue

  /** A worker's run from a busy queue posts nothing that is pending. */
  lemma {:induction false} BusyRun(start: Effect, actions: seq<Action>, c: BatchId)
    requires WorkerRun(start, actions) && QueueBusy(start.rows) && c in start.rows && start.rows[c].status.PendingSync?
    ensures var end := Run(start, actions);
            QueueBusy(end.rows) && c in end.rows && end.rows[c] == start.rows[c] && PostCount(end.log, c) == PostCount(start.log, c)
  {
    hide Step, QueueBusy, PostCount, WorkerAction;
    if actions != [] {
      var init := actions[..|actions| - 1];
      BusyRun(start, init, c);
      BusyStays(Run(start, init), actions[|actions| - 1], c);
    }
  }

  lemma {:induction false} BusyStarves(start: Effect, passes: seq<WorkerPass>, c: BatchId)
    requires Passes(start, passes) && QueueBusy(start.rows) && c in start.rows && start.rows[c].status.PendingSync?
    ensures PostCount(AfterPasses(start, passes).log, c) == PostCount(start.log, c)
    decreases |passes|
  {
    hide Run, PostCount, QueueBusy, IsSelection, Complete, PassCall;
    if passes != [] {
      BusyRun(start, passes[0].actions, c);
      BusyStarves(Run(start, passes[0].actions), passes[1..], c);
    }
  }

  // ---------------------------------------------------------------- behind a batch that never builds

  /** `b` is `c`, or comes before it in every selection that has it. */
  predicate Blocks(rows: Rows, b: BatchId, c: BatchId)
    requires b in rows && c in rows
  {
    b == c || SortsBefore(rows[b], rows[c])
  }

  lemma ComesBefore(rows: Rows, batches: seq<BatchId>, now: int, limit: nat, b: BatchId, c: BatchId, j: nat)
    requires IsSelection(rows, batches, now, limit) && j < |batches| && batches[j] == c
    requires b in rows && Unbuilt(rows[b]) && SortsBefore(rows[b], rows[c])
    ensures exists i :: 0 <= i < j && batches[i] == b
  {
    assert Selected(rows[b], now);
    assert b in batches;
    var i :| 0 <= i < |batches| && batches[i] == b;
    assert i != j;
  }

  /** What a pass leaves of the two batches. */
  ghost predicate Stuck(start: Effect, state: Effect, b: BatchId, c: BatchId) {
    && b in start.rows && c in start.rows && b in state.rows && c in state.rows
    && state.rows[b] == start.rows[b] && state.rows[c] == start.rows[c]
    && PostCount(state.log, b) == PostCount(start.log, b) && PostCount(state.log, c) == PostCount(start.log, c)
  }

  lemma {:induction false} PassStuck(start: Effect, batches: seq<BatchId>, now: int, limit: nat, actions: seq<Action>,
                                     b: BatchId, c: BatchId, k: nat)
    requires IsSelection(start.rows, batches, now, limit) && Pass(start, batches, actions) && NeverBuilds(actions, b)
    requires b in start.rows && c in start.rows && Unbuilt(start.rows[b]) && start.rows[c].status.PendingSync?
    requires Blocks(start.rows, b, c) && k <= |actions|
    ensures Stuck(start, Run(start, actions[..k]), b, c)
    ensures k < |actions| && b in batches[..k] ==> QueueBusy(Run(start, actions[..k]).rows)
  {
    hide Step, WorkerRun, IsSelection, SortsBefore, Ends, PostCount;
    if k > 0 {
      PassStuck(start, batches, now, limit, actions, b, c, k - 1);
      var state, action := Run(start, actions[..k - 1]), actions[k - 1];
      assert PassCall(start, batches, actions, k - 1);
      assert actions[..k][..k - 1] == actions[..k - 1];
      assert Run(start, actions[..k]) == Step(state, action);
      hide Run, WorkerAction;
      PassStep(start, state, batches, now, limit, action, b, c, k - 1);
    }
  }

  lemma PassStep(start: Effect, state: Effect, batches: seq<BatchId>, now: int, limit: nat, action: Action,
                 b: BatchId, c: BatchId, k: nat)
    requires IsSelection(start.rows, batches, now, limit) && k < |batches|
    requires Stuck(start, state, b, c) && Unbuilt(start.rows[b]) && start.rows[c].status.PendingSync?
    requires Blocks(start.rows, b, c)
    requires WorkerAction(state.rows, action) && action.id == batches[k]
    requires action.id == b ==> action.attempt.build.BuildCrashed?
    requires b in batches[..k] ==> QueueBusy(state.rows)
    ensures Stuck(start, Step(state, action), b, c)
    ensures !Ends(state.rows, action) && b in batches[..k + 1] ==> QueueBusy(Step(state, action).rows)
  {
    hide Step, IsSelection, SortsBefore, Ends, PostCount, QueueBusy, WorkerAction;
    assert batches[..k + 1] == batches[..k] + [batches[k]];
    if action.id == c && b != c {
      ComesBefore(start.rows, batches, now, limit, b, c, k);
      assert b in batches[..k];
    }
    assert action.Sync? && action.id in state.rows by { CallKnown(state, action); }
    if QueueBusy(state.rows) {
      BusyStays(state, action, b);
      BusyStays(state, action, c);
    } else if action.id == b {
      RaisingCall(state, action);
    } else {
      OtherCall(state, action, b);
      OtherCall(state, action, c);
    }
  }

  /**
   A batch whose every build raises stays as it is, tried before or not, and so does every pending batch that
   sorts after it: however many passes the worker makes, none of them posts either.
   */
  lemma {:induction false} Starves(start: Effect, passes: seq<WorkerPass>, b: BatchId, c: BatchId)
    requires Passes(start, passes) && NeverBuilt(passes, b)
    requires b in start.rows && c in start.rows && Unbuilt(start.rows[b]) && start.rows[c].status.PendingSync?
    requires Blocks(start.rows, b, c)
    ensures var end := AfterPasses(start, passes);
            && b in end.rows && c in end.rows && end.rows[b] == start.rows[b] && end.rows[c] == start.rows[c]
            && PostCount(end.log, b) == PostCount(start.log, b) && PostCount(end.log, c) == PostCount(start.log, c)
    decreases |passes|
  {
    hide Run, IsSelection, Pass, Complete, PostCount, NeverBuilds, SortsBefore;
    if passes != [] {
      var p := passes[0];
      RestNeverBuilt(passes, b);
      hide NeverBuilt;
      PassStuck(start, p.batches, p.now, p.limit, p.actions, b, c, |p.actions|);
      assert p.actions[..|p.actions|] == p.actions;
      Starves(Run(start, p.actions), passes[1..], b, c);
    }
  }

  // ---------------------------------------------------------------- selections with a chosen head

  lemma SortsTransitive(a: Row, b: Row, c: Row)
    ensures SortsBefore(a, b) && SortsBefore(b, c) ==> SortsBefore(a, c)
    ensures SortsBefore(a, b) && !SortsBefore(c, b) ==> SortsBefore(a, c)
    ensures !(SortsBefore(a, b) && SortsBefore(b, a))
  {
  }

  /** Nothing in the set sorts before `m`. */
  ghost predicate Least(rows: Rows, s: set<BatchId>, m: BatchId)
    requires s <= rows.Keys
  {
    m in s && forall b | b in s :: !SortsBefore(rows[b], rows[m])
  }

  lemma {:induction false} LeastExists(rows: Rows, s: set<BatchId>) returns (m: BatchId)
    requires s != {} && s <= rows.Keys
    ensures Least(rows, s, m)
    decreases |s|
  {
    hide SortsBefore;
    var x :| x in s;
    var rest := s - {x};
    m := x;
    SortsTransitive(rows[x], rows[x], rows[x]);
    if rest != {} {
      var y := LeastExists(rows, rest);
      m := if SortsBefore(rows[x], rows[y]) then x else y;
      forall b | b in s ensures !SortsBefore(rows[b], rows[m]) {
        SortsTransitive(rows[b], rows[x], rows[y]);
        assert b == x || b in rest;
      }
    } else {
      assert s == {x};
    }
  }

  /** The first `limit` batches of the set, in order. */
  ghost predicate FirstOf(rows: Rows, s: set<BatchId>, batches: seq<BatchId>, limit: nat)
    requires s <= rows.Keys
  {
    && |batches| <= limit
    && (forall i :: 0 <= i < |batches| ==> batches[i] in s)
    && (forall i, j :: 0 <= i < j < |batches| ==> batches[i] != batches[j] && !SortsBefore(rows[batches[j]], rows[batches[i]]))
    && (forall b | b in s && b !in batches :: |batches| == limit && forall i :: 0 <= i < |batches| ==> !SortsBefore(rows[b], rows[batches[i]]))
  }

  lemma {:induction false} FirstOfExists(rows: Rows, s: set<BatchId>, limit: nat) returns (batches: seq<BatchId>)
    requires s <= rows.Keys
    ensures FirstOf(rows, s, batches, limit)
    decreases limit
  {
    if limit == 0 || s == {} {
      batches := [];
    } else {
      var m := LeastExists(rows, s);
      batches := HeadedBy(rows, s, m, limit);
    }
  }

  /** Any least batch of the set can head the list. */
  lemma {:induction false} HeadedBy(rows: Rows, s: set<BatchId>, m: BatchId, limit: nat) returns (batches: seq<BatchId>)
    requires s <= rows.Keys && Least(rows, s, m) && limit > 0
    ensures FirstOf(rows, s, batches, limit) && batches != [] && batches[0] == m
    decreases limit, 0
  {
    hide SortsBefore;
    var rest := FirstOfExists(rows, s - {m}, limit - 1);
    batches := [m] + rest;
    assert forall b | b in s && b !in batches :: b in s - {m} && b !in rest;
  }

  /** The pending vouchers. */
  function AllWaiting(rows: Rows): (s: set<BatchId>)
    ensures s <= rows.Keys
  {
    set b | b in rows && Waiting(rows[b])
  }

  lemma WaitingSelected(rows: Rows, batches: seq<BatchId>, now: int, limit: nat)
    requires !QueueBusy(rows) && FirstOf(rows, AllWaiting(rows), batches, limit)
    ensures IsSelection(rows, batches, now, limit)
  {
    hide SortsBefore;
    forall b | b in rows ensures Selected(rows[b], now) <==> b in AllWaiting(rows) {
      assert !Busy(rows[b].status);
    }
  }

  // ---------------------------------------------------------------- a pass that posts its first batch

  /** Tally imports the voucher. */
  function ImportingCall(row: Row, m: BatchId): Action {
    Sync(m, row, None, None, Attempt(0, 0, Built(0), true, Parsed(false, Some(1), None, None, None), true, Survives))
  }

  /** The process dies before it commits anything. */
  function DyingCall(row: Row, d: BatchId): Action {
    Sync(d, row, None, None, Attempt(0, 0, BuildCrashed, true, Refused, false, BeforeCommit))
  }

  lemma FreshCallFits(state: Effect, action: Action)
    requires action.Sync? && action.id in state.rows && action.copy == state.rows[action.id] && action.other.None?
    requires !QueueBusy(state.rows) && Waiting(state.rows[action.id])
    ensures WorkerAction(state.rows, action) && !Reviewing(state.rows)
  {
    assert forall b | b in state.rows :: !Busy(state.rows[b].status);
    forall b | b in state.rows ensures !Interrupted(state.rows, action.id, b) && !state.rows[b].status.ReviewRequired? {
    }
  }

  /** The batch is SYNCED and nothing else happened. */
  ghost predicate PostedOnly(state: Effect, next: Effect, m: BatchId) {
    && m in next.rows && next.rows.Keys == state.rows.Keys && next.rows[m].status.Synced?
    && (forall b | b in state.rows && b != m :: next.rows[b] == state.rows[b])
    && PostCount(next.log, m) == PostCount(state.log, m) + 1
    && (forall b | b != m :: PostCount(next.log, b) == PostCount(state.log, b))
  }

  lemma Imports(state: Effect, m: BatchId)
    requires m in state.rows && !QueueBusy(state.rows) && Waiting(state.rows[m])
    ensures var action := ImportingCall(state.rows[m], m);
            && WorkerAction(state.rows, action) && !Ends(state.rows, action)
            && PostedOnly(state, Step(state, action), m) && !QueueBusy(Step(state, action).rows)
  {
    var action := ImportingCall(state.rows[m], m);
    FreshCallFits(state, action);
    hide WorkerAction, Reviewing, QueueBusy;
    FreshStep(state, action) by { hide *; Fits(state, action); }
    var effect := SyncLocked(state.rows, m, state.rows[m], action.attempt);
    assert effect.rows == state.rows[m := effect.rows[m]] && effect.rows[m].status.Synced?;
    assert |effect.log| == 2 && effect.log[0].Sent? && effect.log[0].batch == m && effect.log[1].Recorded?;
    hide Step, SyncLocked;
    forall b ensures PostCount(state.log + effect.log, b) == PostCount(state.log, b) + (if b == m then 1 else 0) {
      hide PostCount;
      LastSentMore(state.log, effect.log, b);
    }
    assert !QueueBusy(effect.rows) by { StillIdle(state.rows, effect.rows, m); }
  }

  lemma StillIdle(rows: Rows, next: Rows, m: BatchId)
    requires !QueueBusy(rows) && m in next && !Busy(next[m].status) && next == rows[m := next[m]]
    ensures !QueueBusy(next)
  {
    forall b | b in next ensures !Busy(next[b].status) {
      assert b != m ==> b in rows && !Busy(rows[b].status);
    }
  }

  lemma Fits(state: Effect, action: Action)
    requires WorkerAction(state.rows, action)
    ensures action.Sync? && Admissible(state.rows, action) && Fresh(state.rows, action)
  {
  }

  lemma Dies(state: Effect, d: BatchId)
    requires d in state.rows && !QueueBusy(state.rows) && Waiting(state.rows[d])
    ensures var action := DyingCall(state.rows[d], d);
            WorkerAction(state.rows, action) && Ends(state.rows, action) && Step(state, action) == state
  {
    var action := DyingCall(state.rows[d], d);
    FreshCallFits(state, action);
    FreshStep(state, action) by { hide *; Fits(state, action); }
    assert SyncLocked(state.rows, d, state.rows[d], action.attempt) == Effect(state.rows, []);
    assert state.log + [] == state.log;
  }

  // ---------------------------------------------------------------- the exact condition

  /** A pass of this limit that posts the least pending batch, and then ends. */
  lemma PostingPass(start: Effect, m: BatchId, limit: nat) returns (p: WorkerPass)
    requires !QueueBusy(start.rows) && Least(start.rows, AllWaiting(start.rows), m) && limit > 0
    ensures PassOf(start, p) && p.limit == limit
    ensures PostedOnly(start, Run(start, p.actions), m) && !QueueBusy(Run(start, p.actions).rows)
    ensures forall b | b != m :: NeverBuilds(p.actions, b)
  {
    var batches := HeadedBy(start.rows, AllWaiting(start.rows), m, limit);
    WaitingSelected(start.rows, batches, 0, limit);
    var first := ImportingCall(start.rows[m], m);
    Imports(start, m);
    var next := Step(start, first);
    hide Step, WorkerAction, Ends, IsSelection, PostedOnly, QueueBusy, SortsBefore;
    NoCalls(start, batches);
    PassOne(start, batches, [], first);
    RunOne(start, [], first);
    assert [] + [first] == [first];
    if |batches| == 1 {
      p := WorkerPass(0, limit, batches, [first]);
    } else {
      var d := batches[1];
      assert d != m && d in next.rows && next.rows[d] == start.rows[d] by { hide *; OthersStay(start, next, m, d); }
      var last := DyingCall(next.rows[d], d);
      Dies(next, d);
      assert !Ends(Run(start, [first][..0]).rows, [first][0]) by { assert [first][..0] == []; }
      PassOne(start, batches, [first], last);
      RunOne(start, [first], last);
      assert [first] + [last] == [first, last];
      assert [first, last][..1] == [first];
      p := WorkerPass(0, limit, batches, [first, last]);
    }
  }

  lemma NoCalls(start: Effect, batches: seq<BatchId>)
    ensures Pass(start, batches, []) && Run(start, []) == start
  {
  }

  lemma OthersStay(start: Effect, next: Effect, m: BatchId, d: BatchId)
    requires PostedOnly(start, next, m) && d in start.rows && d != m
    ensures d in next.rows && next.rows[d] == start.rows[d]
  {
  }

  /** The pending batches that sort before `c`. */
  function Ahead(rows: Rows, c: BatchId): (s: set<BatchId>)
    requires c in rows
    ensures s <= AllWaiting(rows)
  {
    set b | b in rows && Waiting(rows[b]) && SortsBefore(rows[b], rows[c])
  }

  /** The next batch to post on the way to `c`: the least of those ahead of it, or `c` itself. */
  lemma NextOnTheWay(rows: Rows, c: BatchId) returns (m: BatchId)
    requires c in rows && Waiting(rows[c])
    ensures Least(rows, AllWaiting(rows), m) && (if Ahead(rows, c) == {} then m == c else m in Ahead(rows, c))
  {
    if Ahead(rows, c) == {} {
      m := c;
      forall b | b in AllWaiting(rows) ensures !SortsBefore(rows[b], rows[m]) {
        assert b !in Ahead(rows, c);
      }
    } else {
      m := LeastExists(rows, Ahead(rows, c));
      hide SortsBefore;
      forall b | b in AllWaiting(rows) ensures !SortsBefore(rows[b], rows[m]) {
        SortsTransitive(rows[b], rows[m], rows[c]);
        assert b !in Ahead(rows, c) ==> !SortsBefore(rows[b], rows[c]);
      }
    }
  }

  lemma FewerAhead(start: Effect, next: Effect, m: BatchId, c: BatchId)
    requires PostedOnly(start, next, m) && c in start.rows && c != m && m in Ahead(start.rows, c)
    ensures c in next.rows && next.rows[c] == start.rows[c] && Ahead(next.rows, c) == Ahead(start.rows, c) - {m}
  {
    hide PostCount, SortsBefore;
  }

  /** None of the batches sorts before `c`. */
  ghost predicate Unblocked(rows: Rows, bad: set<BatchId>, c: BatchId)
    requires c in rows
  {
    forall b | b in bad :: b in rows && Unbuilt(rows[b]) && !Blocks(rows, b, c)
  }

  /** Then some passes post `c`: one for each batch ahead of it, and one for itself. */
  lemma {:induction false} Reached(start: Effect, bad: set<BatchId>, c: BatchId, limit: nat) returns (passes: seq<WorkerPass>)
    requires !QueueBusy(start.rows) && c in start.rows && Waiting(start.rows[c]) && Unblocked(start.rows, bad, c) && limit > 0
    ensures Passes(start, passes) && (forall b | b in bad :: NeverBuilt(passes, b))
    ensures forall k :: 0 <= k < |passes| ==> passes[k].limit == limit
    ensures PostCount(AfterPasses(start, passes).log, c) > PostCount(start.log, c)
    decreases |Ahead(start.rows, c)|
  {
    hide QueueBusy, PassOf, Run, NeverBuilds, SortsBefore, PostCount;
    var m := NextOnTheWay(start.rows, c);
    var p := PostingPass(start, m, limit);
    var next := Run(start, p.actions);
    assert m !in bad;
    hide Least;
    if m == c {
      passes := [p];
      assert passes[1..] == [];
      assert Passes(next, []) && AfterPasses(next, []) == next;
    } else {
      FewerAhead(start, next, m, c);
      assert Unblocked(next.rows, bad, c) by { StillUnblocked(start, next, m, bad, c); }
      hide Ahead, Unblocked;
      var rest := Reached(next, bad, c, limit);
      passes := [p] + rest;
      assert passes[1..] == rest;
    }
    forall b | b in bad ensures NeverBuilt(passes, b) {
      assert NeverBuilds(p.actions, b);
    }
  }

  lemma StillUnblocked(start: Effect, next: Effect, m: BatchId, bad: set<BatchId>, c: BatchId)
    requires PostedOnly(start, next, m) && c in start.rows && c != m && m !in bad && Unblocked(start.rows, bad, c)
    ensures c in next.rows && Unblocked(next.rows, bad, c)
  {
    hide PostCount, SortsBefore;
  }

  /**
   The exact condition, for every queue. The builds of the batches in `bad` always raise. Then the worker by
   itself, whatever its calls meet, never posts the pending voucher `c`, if and only if a batch is being
   imported or reviewed, or `c` is in `bad`, or one in `bad` sorts before it. `limit` is that of each pass.
   */
  lemma StarvesExactly(start: Effect, bad: set<BatchId>, c: BatchId, limit: nat)
    requires c in start.rows && Waiting(start.rows[c]) && limit > 0
    requires forall b | b in bad :: b in start.rows && Unbuilt(start.rows[b])
    ensures (forall passes: seq<WorkerPass> | Passes(start, passes) && (forall b | b in bad :: NeverBuilt(passes, b))
                                              && (forall k :: 0 <= k < |passes| ==> passes[k].limit == limit) ::
               PostCount(AfterPasses(start, passes).log, c) == PostCount(start.log, c))
            <==> QueueBusy(start.rows) || exists b | b in bad :: Blocks(start.rows, b, c)
  {
    hide Passes, NeverBuilt, AfterPasses, PostCount, QueueBusy, SortsBefore;
    if QueueBusy(start.rows) || exists b | b in bad :: Blocks(start.rows, b, c) {
      forall passes: seq<WorkerPass> | Passes(start, passes) && forall b | b in bad :: NeverBuilt(passes, b)
        ensures PostCount(AfterPasses(start, passes).log, c) == PostCount(start.log, c)
      {
        if QueueBusy(start.rows) {
          BusyStarves(start, passes, c);
        } else {
          var b :| b in bad && Blocks(start.rows, b, c);
          Starves(start, passes, b, c);
        }
      }
    } else {
      var passes := Reached(start, bad, c, limit);
    }
  }
}
