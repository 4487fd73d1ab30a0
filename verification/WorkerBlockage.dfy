/**
 Which vouchers of Master's batches the worker never posts, because a batch cannot be built
 (app/services/sync_worker.py, app/services/tally.py).
 */
module WorkerBlockage {
  import opened Records
  import opened NetworkDb
  import opened MasterQueue
  import opened VoucherSystem
  import opened VoucherCrashes
  import opened TallyStarvation
  import R = TallyRetryTheorems
  import M = MasterSystem
  import Q = TallyQueue
  import V = VoucherSummary
  import P = VoucherPostings

  // ---------------------------------------------------------------- batches whose build raises

  /** Tally is configured, and the batch has a party, items, and CGST and SGST rates of more than 100% together. */
  ghost predicate NeverBuildable(db: Db, settings: P.Settings, b: Uuid) {
    b in db.batches
    && var batch := db.batches[b];
       && P.SettingsComplete(settings)
       && batch.header.partyName.Some? && batch.header.partyName.value != ""
       && (exists s :: (b, s) in db.batchItems)
       && V.SalesSide(batch.kind) && !batch.header.interState
       && V.Money(Rate(batch.header.cgstRate) + Rate(batch.header.sgstRate)) > 10000
  }

  /** The build that a call for the batch meets is that of Master's batch, with its items in some order. */
  ghost predicate BuildsAs(db: Db, settings: P.Settings, b: Uuid, build: Q.Build) {
    exists order: seq<SerialNumber>, request: Q.Request :: BuildsOf(db, settings, b, build, order, request)
  }

  ghost predicate BuildsOf(db: Db, settings: P.Settings, b: Uuid, build: Q.Build, order: seq<SerialNumber>, request: Q.Request) {
    && b in db.batches && Enumerates(db, b, order)
    && (forall i :: 0 <= i < |order| ==> (b, order[i]) in db.batchItems && order[i] in db.serials)
    && var voucher := VoucherOf(db, b, order);
       && V.KnownProducts(db.products, voucher.items)
       && build == BuildOutcome(P.CheckBuild(voucher, settings, V.Lines(voucher, db.products)), request)
  }

  /** The serials of a set in some order. */
  lemma {:induction false} InSomeOrder(s: set<SerialNumber>) returns (order: seq<SerialNumber>)
    ensures forall x :: x in order <==> x in s
    ensures forall i, j :: 0 <= i < j < |order| ==> order[i] != order[j]
    decreases |s|
  {
    if s == {} {
      order := [];
    } else {
      var x :| x in s;
      var rest := InSomeOrder(s - {x});
      order := [x] + rest;
      forall i, j | 0 <= i < j < |order| ensures order[i] != order[j] {
        assert order[j] == rest[j - 1] && rest[j - 1] in rest;
      }
    }
  }

  lemma ItemsEnumerated(db: Db, b: Uuid) returns (order: seq<SerialNumber>)
    ensures Enumerates(db, b, order)
  {
    var keys := db.batchItems.Keys;
    var s := set k | k in keys && k.0 == b :: k.1;
    order := InSomeOrder(s);
    forall x ensures x in s <==> (b, x) in db.batchItems {
      if (b, x) in db.batchItems {
        assert (b, x) in keys && (b, x).0 == b && (b, x).1 == x;
      }
    }
  }

  /** Of a reachable state such a batch, and no other, has builds that raise. */
  lemma RaisesExactly(actions: seq<M.Action>, settings: P.Settings, b: Uuid, build: Q.Build, order: seq<SerialNumber>, request: Q.Request)
    requires BuildsOf(M.Run(EMPTY_DB, actions), settings, b, build, order, request)
    ensures build.BuildCrashed? <==> NeverBuildable(M.Run(EMPTY_DB, actions), settings, b)
  {
    var db := M.Run(EMPTY_DB, actions);
    CrashesReachably(actions, b, order, settings, request);
    var voucher := VoucherOf(db, b, order);
    hide M.Run, P.CheckBuild, V.Lines, V.KnownProducts, P.SettingsComplete;
    assert voucher.header == db.batches[b].header && voucher.kind == db.batches[b].kind && |voucher.items| == |order|;
    if order != [] {
      assert order[0] in order && (b, order[0]) in db.batchItems;
    } else {
      assert forall s :: s !in order;
    }
  }

  lemma BuildsKnown(actions: seq<M.Action>, settings: P.Settings, b: Uuid, build: Q.Build)
    requires NeverBuildable(M.Run(EMPTY_DB, actions), settings, b)
    ensures BuildsAs(M.Run(EMPTY_DB, actions), settings, b, build) <==> build.BuildCrashed?
  {
    var db := M.Run(EMPTY_DB, actions);
    hide M.Run, NeverBuildable, BuildsOf;
    if BuildsAs(db, settings, b, build) {
      var order, request :| BuildsOf(db, settings, b, build, order, request);
      RaisesExactly(actions, settings, b, build, order, request);
    }
    if build.BuildCrashed? {
      var order := ItemsEnumerated(db, b);
      assert b in db.batches by { InBatches(db, settings, b); }
      CrashesReachably(actions, b, order, settings, 0);
      var outcome := OutcomeOf(actions, settings, b, order);
      RaisesExactly(actions, settings, b, outcome, order, 0);
      assert BuildsOf(db, settings, b, build, order, 0);
    }
  }

  lemma InBatches(db: Db, settings: P.Settings, b: Uuid)
    requires NeverBuildable(db, settings, b)
    ensures b in db.batches
  {
  }

  lemma OutcomeOf(actions: seq<M.Action>, settings: P.Settings, b: Uuid, order: seq<SerialNumber>) returns (build: Q.Build)
    requires b in M.Run(EMPTY_DB, actions).batches && Enumerates(M.Run(EMPTY_DB, actions), b, order)
    ensures BuildsOf(M.Run(EMPTY_DB, actions), settings, b, build, order, 0)
  {
    CrashesReachably(actions, b, order, settings, 0);
    var db := M.Run(EMPTY_DB, actions);
    hide M.Run;
    var voucher := VoucherOf(db, b, order);
    build := BuildOutcome(P.CheckBuild(voucher, settings, V.Lines(voucher, db.products)), 0);
  }

  // ---------------------------------------------------------------- the worker on Master's queue

  /** Every call for the batch builds the voucher of Master's batch. */
  ghost predicate CallsBuild(passes: seq<WorkerPass>, db: Db, settings: P.Settings, b: Uuid) {
    forall k, i :: 0 <= k < |passes| && 0 <= i < |passes[k].actions| && passes[k].actions[i].Sync? && passes[k].actions[i].id == b ==>
      BuildsAs(db, settings, b, passes[k].actions[i].attempt.build)
  }

  lemma CallsRaise(passes: seq<WorkerPass>, actions: seq<M.Action>, settings: P.Settings, b: Uuid)
    requires NeverBuildable(M.Run(EMPTY_DB, actions), settings, b)
    ensures CallsBuild(passes, M.Run(EMPTY_DB, actions), settings, b) <==> NeverBuilt(passes, b)
  {
    forall build ensures BuildsAs(M.Run(EMPTY_DB, actions), settings, b, build) <==> build.BuildCrashed? {
      BuildsKnown(actions, settings, b, build);
    }
    hide M.Run, NeverBuildable, BuildsAs;
    if CallsBuild(passes, M.Run(EMPTY_DB, actions), settings, b) {
      forall k | 0 <= k < |passes| ensures NeverBuilds(passes[k].actions, b) {
      }
    }
    if NeverBuilt(passes, b) {
      forall k, i | 0 <= k < |passes| && 0 <= i < |passes[k].actions| && passes[k].actions[i].Sync? && passes[k].actions[i].id == b
        ensures passes[k].actions[i].attempt.build.BuildCrashed?
      {
        assert NeverBuilds(passes[k].actions, b);
      }
    }
  }

  /** The batches that are pending without a frozen request and cannot be built. */
  ghost predicate Blocker(w: World, settings: P.Settings, b: Uuid) {
    b in w.queue.rows && Unbuilt(w.queue.rows[b]) && NeverBuildable(w.db, settings, b)
  }

  /**
   In every reachable state of Master and its queue: the worker by itself never posts the pending voucher `c`,
   whatever its calls meet and as long as over-taxed batches are built from Master's tables, if and only if a
   batch is being imported or reviewed, or an over-taxed batch without a frozen request is `c` or sorts before it.
   */
  lemma OverTaxedStarvesExactly(moves: seq<Move>, settings: P.Settings, c: Uuid, limit: nat)
    requires var w := Run(moves); c in w.queue.rows && Waiting(w.queue.rows[c]) && limit > 0
    ensures var w := Run(moves);
            (forall passes: seq<WorkerPass> | Passes(w.queue, passes)
                                              && (forall b | Blocker(w, settings, b) :: CallsBuild(passes, w.db, settings, b))
                                              && (forall k :: 0 <= k < |passes| ==> passes[k].limit == limit) ::
               R.PostCount(AfterPasses(w.queue, passes).log, c) == R.PostCount(w.queue.log, c))
            <==> QueueBusy(w.queue.rows) || exists b | Blocker(w, settings, b) :: Blocks(w.queue.rows, b, c)
  {
    var w := Run(moves);
    DbIsRun(moves);
    hide Run, M.Run, NeverBuildable, QueueBusy, Passes, AfterPasses, R.PostCount, Waiting, Unbuilt, CallsBuild, NeverBuilt, Blocks;
    var bad := set b | b in w.queue.rows && Blocker(w, settings, b);
    StarvesExactly(w.queue, bad, c, limit);
    forall passes: seq<WorkerPass>, b | Blocker(w, settings, b)
      ensures CallsBuild(passes, w.db, settings, b) <==> NeverBuilt(passes, b)
    {
      CallsRaise(passes, Requests(moves), settings, b);
    }
  }

  /** After a franchise sold one serial at 60% and 60%, its batch is one of these. */
  lemma SixtyAndSixtyBlocks(n: NodeCode, item: Item, party: string, settings: P.Settings)
    requires item.status == Some(InStock) && ValidGst(item.identity) && ValidPrices(item.rate, item.discountRate)
    requires party != "" && P.SettingsComplete(settings)
    ensures var sale := SaleRun(n, item, PartyHeader(Some(party), false, Some(60.0), Some(60.0), None));
            Blocker(Run(AsMoves(sale)), settings, 2)
  {
    var sale := SaleRun(n, item, PartyHeader(Some(party), false, Some(60.0), Some(60.0), None));
    hide Run, M.Run, M.Step, SaleRun, AsMoves, P.CheckBuild, V.Lines, V.KnownProducts, P.SettingsComplete, VoucherOf, Enumerates, BuildOutcome;
    SixtyAndSixtyCrashes(n, item, party, settings, 0);
    var db, order := M.Run(EMPTY_DB, sale), [item.serial];
    var voucher := VoucherOf(db, 2, order);
    var build := BuildOutcome(P.CheckBuild(voucher, settings, V.Lines(voucher, db.products)), 0);
    assert BuildsOf(db, settings, 2, build, order, 0);
    hide BuildsOf, NeverBuildable;
    RaisesExactly(sale, settings, 2, build, order, 0);
    Unworked(sale);
    BlockerOf(Run(AsMoves(sale)), settings, 2);
  }

  lemma BlockerOf(w: World, settings: P.Settings, b: Uuid)
    requires Joined(w) && NeverBuildable(w.db, settings, b)
    requires b in w.queue.rows ==> b in w.db.journal && w.queue.rows[b] == RowOf(b, w.db.journal[b])
    ensures Blocker(w, settings, b)
  {
    hide P.SettingsComplete;
    assert b in w.queue.rows.Keys && b in w.db.batches.Keys;
  }
}
