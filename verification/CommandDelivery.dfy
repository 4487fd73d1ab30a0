/** What a Lite receives over the runs of Master (app/services/network_ingest.py, app/routers/node_api.py). */
module CommandDelivery {
  import opened Records
  import opened NetworkDb
  import opened NetworkIngest
  import opened QrAllocation
  import opened QrReplacementIntent
  import opened TallyProducts
  import opened LedgerInvariants
  import opened MasterSystem
  import opened SystemSteps
  import opened Frames
  import Q = CommandQueue

  // ---------------------------------------------------------------- what actions do to the queue

  lemma DispatchAppends(db: Db, n: NodeCode, e: Event)
    requires n in db.nodes && Dispatch(db, n, e).Ok?
    ensures Appends(db.commands, Dispatch(db, n, e).value.0.commands)
  {
    hide CheckDispatch, DispatchItems;
  }

  lemma ReceiveAppends(db: Db, n: NodeCode, e: Event)
    requires n in db.nodes && e.transferId.Some? && ReceiveTransfer(db, n, e).Ok?
    ensures Appends(db.commands, ReceiveTransfer(db, n, e).value.0.commands)
  {
    hide CheckReceive, ReceiveItems, AllReceived;
  }

  lemma EventAppends(db: Db, n: NodeCode, e: Event)
    requires n in db.nodes && WellShaped(e) && ApplyEvent(db, n, e).Ok?
    ensures Appends(db.commands, ApplyEvent(db, n, e).value.0.commands)
  {
    hide Snapshot, Inventory, Dispatch, ReceiveTransfer, DistinctSerials, InRange;
    match e.kind {
      case StockSnapshot => SnapshotFrame(db, n, e);
      case TransferDispatched => DispatchAppends(db, n, e);
      case TransferReceived => ReceiveAppends(db, n, e);
      case ReceiptSubmitted =>
      case Heartbeat =>
      case _ => InventoryFrame(db, n, e);
    }
  }

  lemma {:induction false} EventsAppend(db: Db, n: NodeCode, now: int, events: seq<Event>)
    requires n in db.nodes && (forall k :: 0 <= k < |events| ==> WellShaped(events[k])) && IngestEvents(db, n, now, events).Ok?
    ensures Appends(db.commands, IngestEvents(db, n, now, events).value.0.commands)
    decreases |events|
  {
    hide ApplyEvent, SequenceUsed, WellShaped;
    if events != [] {
      var e, next := events[0], IngestEvent(db, n, now, events[0]).value.0;
      if e.id !in db.journal {
        EventAppends(db, n, e);
      }
      EventsAppend(next, n, now, events[1..]);
    }
  }

  /** Every action but an acknowledgement only appends commands. */
  lemma StepAppends(db: Db, a: Action)
    requires !a.AcknowledgeCommand?
    ensures Appends(db.commands, Step(db, a).commands)
  {
    if a.Post? {
      hide IngestEvents, WellShaped, Appends;
      NothingAppended(db.commands);
      if Admissible(db, a) && IngestEvents(db, a.node, a.now, a.events).Ok? {
        EventsAppend(db, a.node, a.now, a.events);
      }
    } else {
      hide Step;
      StepFrame(db, a);
    }
  }

  // ---------------------------------------------------------------- acknowledging one by one

  /** The Lite's requests that acknowledge these commands. */
  function Acknowledgements(n: NodeCode, ids: seq<nat>): (actions: seq<Action>)
    ensures |actions| == |ids|
  {
    seq(|ids|, i requires 0 <= i < |ids| => AcknowledgeCommand(n, ids[i]))
  }

  /** Acknowledging commands one by one marks exactly those commands. */
  lemma {:induction false} AcknowledgedOneByOne(db: Db, n: NodeCode, ids: seq<nat>)
    requires forall i :: 0 <= i < |ids| ==> ids[i] < |db.commands| && db.commands[ids[i]].target == n
    ensures Run(db, Acknowledgements(n, ids)) == db.(commands := Q.Acknowledged(db.commands, ids))
  {
    var actions := Acknowledgements(n, ids);
    if ids == [] {
      assert Q.Acknowledged(db.commands, ids) == db.commands;
    } else {
      var init, id := ids[..|ids| - 1], ids[|ids| - 1];
      AcknowledgedOneByOne(db, n, init);
      assert actions[..|actions| - 1] == Acknowledgements(n, init);
      var before := Q.Acknowledged(db.commands, init);
      assert ids == init + [id];
      assert before[id := before[id].(acknowledged := true)] == Q.Acknowledged(db.commands, ids) by {
        assert forall i: nat :: i in ids <==> i in init || i == id;
      }
    }
  }

  // ---------------------------------------------------------------- a Lite and Master

  /** Something that Master does, or a poll of which the Lite acknowledges the first `kept` commands. */
  datatype Moment = Act(action: Action) | Fetch(limit: int, kept: nat)

  datatype View = View(db: Db, log: seq<nat>)

  /** The commands that the poll returns and the Lite acknowledges. */
  ghost function Taken(db: Db, n: NodeCode, upserts: bool, bytes: nat -> nat, limit: int, kept: nat): seq<nat> {
    var result := Q.Poll(db.commands, n, upserts, limit, bytes);
    if Q.ReachesTooLarge(Q.Window(db.commands, n, upserts, limit), bytes) then []
    else if kept <= |result| then result[..kept] else result
  }

  /** The actions of Master at this moment; only the Lite itself acknowledges its commands. */
  ghost function ActionsOf(db: Db, n: NodeCode, upserts: bool, bytes: nat -> nat, m: Moment): seq<Action> {
    match m
    case Act(action) => if action.AcknowledgeCommand? && action.node == n then [] else [action]
    case Fetch(limit, kept) => Acknowledgements(n, Taken(db, n, upserts, bytes, limit, kept))
  }

  ghost function Passed(v: View, n: NodeCode, upserts: bool, bytes: nat -> nat, m: Moment): View {
    View(Run(v.db, ActionsOf(v.db, n, upserts, bytes, m)),
         if m.Fetch? then v.log + Taken(v.db, n, upserts, bytes, m.limit, m.kept) else v.log)
  }

  ghost function Timeline(n: NodeCode, upserts: bool, bytes: nat -> nat, moments: seq<Moment>): View {
    if moments == [] then View(EMPTY_DB, [])
    else Passed(Timeline(n, upserts, bytes, moments[..|moments| - 1]), n, upserts, bytes, moments[|moments| - 1])
  }

  ghost predicate InOrder(v: View, n: NodeCode, upserts: bool) {
    Q.InOrder(Q.Delivery(v.db.commands, v.log), n, upserts)
  }

  /** Appended commands become pending in the order in which they are appended. */
  lemma {:induction false} AppendsInOrder(commands: seq<Command>, next: seq<Command>, log: seq<nat>, n: NodeCode, upserts: bool)
    requires Appends(commands, next) && Q.InOrder(Q.Delivery(commands, log), n, upserts)
    ensures Q.InOrder(Q.Delivery(next, log), n, upserts)
    decreases |next|
  {
    if |next| == |commands| {
      assert next == commands;
    } else {
      var init := next[..|next| - 1];
      AppendsInOrder(commands, init, log, n, upserts);
      assert next == init + [next[|next| - 1]];
      hide Q.InOrder;
      Q.EnqueueInOrder(Q.Delivery(init, log), n, upserts, next[|next| - 1]);
    }
  }

  /** Acknowledgements of other nodes do not matter to this one. */
  lemma MarkedElsewhere(commands: seq<Command>, index: nat, n: NodeCode, upserts: bool, log: seq<nat>)
    requires index < |commands| && commands[index].target != n && Q.InOrder(Q.Delivery(commands, log), n, upserts)
    ensures Q.InOrder(Q.Delivery(commands[index := commands[index].(acknowledged := true)], log), n, upserts)
  {
    var next := commands[index := commands[index].(acknowledged := true)];
    hide Q.Pending, Q.AllAddressed;
    Q.PendingSame(commands, next, n, upserts, 0);
    Q.AddressedSame(commands, next, n, upserts);
  }

  lemma OthersInOrder(db: Db, log: seq<nat>, n: NodeCode, upserts: bool, other: NodeCode, index: nat)
    requires Q.InOrder(Q.Delivery(db.commands, log), n, upserts) && other != n
    ensures Q.InOrder(Q.Delivery(Acknowledge(db, other, index).commands, log), n, upserts)
  {
    hide Q.InOrder;
    if index < |db.commands| && db.commands[index].target == other {
      MarkedElsewhere(db.commands, index, n, upserts, log);
    }
  }

  lemma ActInOrder(v: View, n: NodeCode, upserts: bool, action: Action)
    requires InOrder(v, n, upserts) && !(action.AcknowledgeCommand? && action.node == n)
    ensures InOrder(View(Step(v.db, action), v.log), n, upserts)
  {
    hide Q.InOrder;
    if action.AcknowledgeCommand? {
      OthersInOrder(v.db, v.log, n, upserts, action.node, action.index);
    } else {
      StepAppends(v.db, action);
      hide Step;
      AppendsInOrder(v.db.commands, Step(v.db, action).commands, v.log, n, upserts);
    }
  }

  lemma FetchInOrder(v: View, n: NodeCode, upserts: bool, bytes: nat -> nat, limit: int, kept: nat)
    requires InOrder(v, n, upserts)
    ensures InOrder(Passed(v, n, upserts, bytes, Fetch(limit, kept)), n, upserts)
  {
    var taken := Taken(v.db, n, upserts, bytes, limit, kept);
    Q.PollPrefix(v.db.commands, n, upserts, limit, bytes);
    Q.PendingIds(v.db.commands, n, upserts, 0);
    var pending := Q.Pending(v.db.commands, n, upserts, 0);
    hide Q.Poll, Q.Pending, Q.InOrder, Run, Acknowledge, Q.Acknowledged;
    assert taken <= pending;
    forall i | 0 <= i < |taken| ensures taken[i] < |v.db.commands| && v.db.commands[taken[i]].target == n {
      assert taken[i] == pending[i] && pending[i] in pending;
    }
    AcknowledgedOneByOne(v.db, n, taken);
    Q.KeptInOrder(Q.Delivery(v.db.commands, v.log), n, upserts, taken);
  }

  lemma RunOne(db: Db, action: Action)
    ensures Run(db, []) == db && Run(db, [action]) == Step(db, action)
  {
    hide Step;
    assert [action][..0] == [];
  }

  /**
   Whatever Master does and however the Lite's polls end, what the Lite acknowledged so far followed by what is
   pending for it is every command that Master ever queued for it, once each, in id order.
   */
  lemma {:induction false} DeliveredInOrder(n: NodeCode, upserts: bool, bytes: nat -> nat, moments: seq<Moment>)
    ensures var v := Timeline(n, upserts, bytes, moments);
            v.log + Q.Pending(v.db.commands, n, upserts, 0) == Q.AllAddressed(v.db.commands, n, upserts)
  {
    hide Step, Run;
    if moments == [] {
      Q.NothingInOrder(n, upserts);
    } else {
      var v, m := Timeline(n, upserts, bytes, moments[..|moments| - 1]), moments[|moments| - 1];
      DeliveredInOrder(n, upserts, bytes, moments[..|moments| - 1]);
      assert InOrder(v, n, upserts);
      assert InOrder(Passed(v, n, upserts, bytes, m), n, upserts) by {
        hide InOrder;
        match m {
          case Act(action) =>
            RunOne(v.db, action);
            if !(action.AcknowledgeCommand? && action.node == n) {
              ActInOrder(v, n, upserts, action);
            }
          case Fetch(limit, kept) => FetchInOrder(v, n, upserts, bytes, limit, kept);
        }
      }
    }
  }

  lemma {:induction false} RunJoins(db: Db, a: seq<Action>, b: seq<Action>)
    ensures Run(db, a + b) == Run(Run(db, a), b)
  {
    hide Step;
    if b == [] {
      assert a + b == a;
    } else {
      assert (a + b)[..|a + b| - 1] == a + b[..|b| - 1];
      RunJoins(db, a, b[..|b| - 1]);
    }
  }

  /** The databases of a timeline are reachable states of Master, so all that holds of those holds of them. */
  lemma {:induction false} TimelineIsRun(n: NodeCode, upserts: bool, bytes: nat -> nat, moments: seq<Moment>)
    returns (actions: seq<Action>)
    ensures Timeline(n, upserts, bytes, moments).db == Run(EMPTY_DB, actions)
  {
    hide Step, ActionsOf;
    if moments == [] {
      actions := [];
    } else {
      var v := Timeline(n, upserts, bytes, moments[..|moments| - 1]);
      var before := TimelineIsRun(n, upserts, bytes, moments[..|moments| - 1]);
      var more := ActionsOf(v.db, n, upserts, bytes, moments[|moments| - 1]);
      RunJoins(EMPTY_DB, before, more);
      actions := before + more;
    }
  }
}
