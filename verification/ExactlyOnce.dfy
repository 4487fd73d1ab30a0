/**
 Exactly-once processing of events that are sent at least once.

 Lites resend, overlap and split their requests, and requests fail. The database is nevertheless the
 result of applying each accepted event once, in acceptance order.
 */
module ExactlyOnce {
  import opened Records
  import opened NetworkDb
  import opened NetworkIngest
  import opened QrAllocation
  import opened QrReplacementIntent
  import opened TallyProducts
  import opened StockInvariants
  import opened LedgerInvariants
  import opened MasterSystem
  import opened SystemSteps
  import opened Frames

  predicate AllShaped(events: seq<Event>) {
    forall k :: 0 <= k < |events| ==> WellShaped(events[k])
  }

  // ---------------------------------------------------------------- splitting and resending a request

  /** Ingesting two lists one after the other. */
  function IngestBoth(db: Db, n: NodeCode, now: int, a: seq<Event>, b: seq<Event>): Result<(Db, seq<Acknowledgement>), Error>
    requires n in db.nodes && AllShaped(a) && AllShaped(b)
  {
    var (mid, acks) :- IngestEvents(db, n, now, a);
    var (last, more) :- IngestEvents(mid, n, now, b);
    Ok((last, acks + more))
  }

  /** A request can be cut anywhere: the outcome, including the first error, is the same. */
  lemma {:induction false} IngestSplits(db: Db, n: NodeCode, now: int, a: seq<Event>, b: seq<Event>)
    requires n in db.nodes && AllShaped(a) && AllShaped(b)
    ensures IngestEvents(db, n, now, a + b) == IngestBoth(db, n, now, a, b)
    decreases |a|
  {
    hide IngestEvent;
    if a == [] {
      assert a + b == b;
      if IngestEvents(db, n, now, b).Ok? {
        var acks: seq<Acknowledgement> := IngestEvents(db, n, now, b).value.1;
        assert [] + acks == acks;
      }
    } else {
      assert (a + b)[1..] == a[1..] + b;
      var r := IngestEvent(db, n, now, a[0]);
      if r.Ok? {
        IngestSplits(r.value.0, n, now, a[1..], b);
        var rest := IngestEvents(r.value.0, n, now, a[1..]);
        if rest.Ok? {
          var tail := IngestEvents(rest.value.0, n, now, b);
          if tail.Ok? {
            assert [r.value.1] + (rest.value.1 + tail.value.1) == ([r.value.1] + rest.value.1) + tail.value.1;
          }
        }
      }
    }
  }

  /** The journal holds every event of the list for this node, with these acknowledgements. */
  ghost predicate Journalled(db: Db, n: NodeCode, events: seq<Event>, acks: seq<Acknowledgement>) {
    && |acks| == |events|
    && forall k :: 0 <= k < |events| ==>
         && events[k].id in db.journal
         && db.journal[events[k].id].node == n
         && db.journal[events[k].id].event == events[k]
         && db.journal[events[k].id].acknowledgement == acks[k]
  }

  /** Entries of the journal are never changed or removed. */
  ghost predicate JournalKept(db: Db, next: Db) {
    forall e | e in db.journal :: e in next.journal && next.journal[e] == db.journal[e]
  }

  lemma IngestEventJournals(db: Db, n: NodeCode, now: int, e: Event)
    requires n in db.nodes && WellShaped(e) && IngestEvent(db, n, now, e).Ok?
    ensures var (next, ack) := IngestEvent(db, n, now, e).value;
            JournalKept(db, next) && Journalled(next, n, [e], [ack])
  {
    hide ApplyEvent;
  }

  lemma {:induction false} IngestJournals(db: Db, n: NodeCode, now: int, events: seq<Event>)
    requires n in db.nodes && AllShaped(events) && IngestEvents(db, n, now, events).Ok?
    ensures var (next, acks) := IngestEvents(db, n, now, events).value;
            JournalKept(db, next) && Journalled(next, n, events, acks)
    decreases |events|
  {
    hide IngestEvent;
    if events != [] {
      var (next, ack) := IngestEvent(db, n, now, events[0]).value;
      var (last, acks) := IngestEvents(next, n, now, events[1..]).value;
      IngestEventJournals(db, n, now, events[0]);
      IngestJournals(next, n, now, events[1..]);
      assert events[0].id in next.journal by { assert Journalled(next, n, [events[0]], [ack]); assert [events[0]][0] == events[0]; }
      assert next.journal[events[0].id].acknowledgement == ack by { assert [ack][0] == ack; assert [events[0]][0] == events[0]; }
      JournalledCons(next, last, n, events, ack, acks);
    }
  }

  lemma JournalledCons(next: Db, last: Db, n: NodeCode, events: seq<Event>, ack: Acknowledgement, acks: seq<Acknowledgement>)
    requires events != [] && Journalled(next, n, [events[0]], [ack]) && JournalKept(next, last)
    requires Journalled(last, n, events[1..], acks)
    ensures Journalled(last, n, events, [ack] + acks)
  {
    forall k | 0 <= k < |events|
      ensures events[k].id in last.journal && last.journal[events[k].id].node == n
              && last.journal[events[k].id].event == events[k]
              && last.journal[events[k].id].acknowledgement == ([ack] + acks)[k]
    {
      if k == 0 {
        assert [events[0]][0] == events[0];
      } else {
        assert events[1..][k - 1] == events[k];
      }
    }
  }

  /** Events that are all journalled are acknowledged again, word for word, and change nothing. */
  lemma {:induction false} IngestAgain(db: Db, n: NodeCode, now: int, events: seq<Event>, acks: seq<Acknowledgement>)
    requires n in db.nodes && AllShaped(events) && Journalled(db, n, events, acks)
    ensures IngestEvents(db, n, now, events) == Ok((db, acks))
    decreases |events|
  {
    hide AcceptEvent;
    if events == [] {
      assert acks == [];
    } else {
      assert [acks[0]] + acks[1..] == acks;
      assert IngestEvent(db, n, now, events[0]) == Ok((db, acks[0]));
      assert Journalled(db, n, events[1..], acks[1..]) by {
        assert forall k :: 0 <= k < |events[1..]| ==> events[1..][k] == events[k + 1] && acks[1..][k] == acks[k + 1];
      }
      IngestAgain(db, n, now, events[1..], acks[1..]);
    }
  }

  // ---------------------------------------------------------------- the journal only grows

  lemma PostKeepsJournal(db: Db, n: NodeCode, now: int, limit: nat, events: seq<Event>)
    requires n in db.nodes && AllShaped(events)
    ensures var next := PostEvents(db, n, now, limit, events).0; JournalKept(db, next) && db.nodes.Keys <= next.nodes.Keys
  {
    hide IngestEvents;
    if IngestEvents(db, n, now, events).Ok? {
      IngestJournals(db, n, now, events);
      IngestNodes(db, n, now, events);
    }
  }

  /** Only node requests write the journal. */
  lemma StepJournalSame(db: Db, a: Action)
    requires !a.Post?
    ensures Step(db, a).journal == db.journal && db.nodes.Keys <= Step(db, a).nodes.Keys
  {
    hide Step;
    StepFrame(db, a);
  }

  lemma StepKeepsJournal(db: Db, a: Action)
    ensures JournalKept(db, Step(db, a)) && db.nodes.Keys <= Step(db, a).nodes.Keys
  {
    if !a.Post? {
      hide Step;
      StepJournalSame(db, a);
    } else if Admissible(db, a) {
      hide PostEvents;
      PostKeepsJournal(db, a.node, a.now, a.limit, a.events);
    }
  }

  lemma {:induction false} IngestNodes(db: Db, n: NodeCode, now: int, events: seq<Event>)
    requires n in db.nodes && AllShaped(events) && IngestEvents(db, n, now, events).Ok?
    ensures IngestEvents(db, n, now, events).value.0.nodes.Keys == db.nodes.Keys
    decreases |events|
  {
    hide ApplyEvent;
    if events != [] {
      IngestNodes(IngestEvent(db, n, now, events[0]).value.0, n, now, events[1..]);
    }
  }

  lemma {:induction false} RunKeepsJournal(db: Db, actions: seq<Action>)
    ensures JournalKept(db, Run(db, actions)) && db.nodes.Keys <= Run(db, actions).nodes.Keys
    decreases |actions|
  {
    hide Step;
    if actions != [] {
      RunKeepsJournal(db, actions[..|actions| - 1]);
      StepKeepsJournal(Run(db, actions[..|actions| - 1]), actions[|actions| - 1]);
    }
  }

  // ---------------------------------------------------------------- main results

  /**
   Resending an accepted request at any later time, whatever happened in between, is acknowledged with
   the same acknowledgements and changes nothing.
   */
  lemma ResendChangesNothing(db: Db, n: NodeCode, now: int, limit: nat, events: seq<Event>, later: seq<Action>, again: int)
    requires n in db.nodes && AllShaped(events)
    requires PostEvents(db, n, now, limit, events).1.Accepted?
    requires var next := PostEvents(db, n, now, limit, events).0;
             n in Run(next, later).nodes && Run(next, later).nodes[n].active
    ensures var (next, response) := PostEvents(db, n, now, limit, events);
            var after := Run(next, later);
            PostEvents(after, n, again, limit, events)
            == (after, Accepted(response.acknowledgements, after.nodes[n].lastSequence))
  {
    var (next, response) := PostEvents(db, n, now, limit, events);
    var after := Run(next, later);
    hide IngestEvents, Run;
    IngestJournals(db, n, now, events);
    RunKeepsJournal(next, later);
    IngestAgain(after, n, again, events, response.acknowledgements);
  }

  lemma {:induction false} ItemCountConcat(a: seq<Event>, b: seq<Event>)
    ensures ItemCount(a + b) == ItemCount(a) + ItemCount(b)
  {
    if a == [] {
      assert a + b == b;
    } else {
      assert (a + b)[1..] == a[1..] + b;
      ItemCountConcat(a[1..], b);
    }
  }

  lemma {:induction false} IngestKeepsActive(db: Db, n: NodeCode, now: int, events: seq<Event>)
    requires n in db.nodes && AllShaped(events) && IngestEvents(db, n, now, events).Ok?
    ensures var next := IngestEvents(db, n, now, events).value.0; n in next.nodes && next.nodes[n].active == db.nodes[n].active
    decreases |events|
  {
    hide ApplyEvent;
    if events != [] {
      IngestKeepsActive(IngestEvent(db, n, now, events[0]).value.0, n, now, events[1..]);
    }
  }

  // ---------------------------------------------------------------- the database as a fold of accepted events

  /** What takes effect: one accepted event, or one administrator action. */
  datatype Effect = Accept(node: NodeCode, now: int, event: Event) | Perform(action: Action)

  /** Applying the event once: it must be new and be accepted. */
  predicate Enabled(db: Db, f: Effect) {
    match f
    case Accept(n, now, e) => n in db.nodes && WellShaped(e) && e.id !in db.journal && AcceptEvent(db, n, now, e).Ok?
    case Perform(a) => !a.Post?
  }

  function Take(db: Db, f: Effect): Db
    requires Enabled(db, f)
  {
    match f
    case Accept(n, now, e) => AcceptEvent(db, n, now, e).value.0
    case Perform(a) => Step(db, a)
  }

  /** Every effect is enabled in its turn, and together they lead from `db` to `last`. */
  ghost predicate Leads(db: Db, effects: seq<Effect>, last: Db)
    decreases |effects|
  {
    if effects == [] then last == db
    else Enabled(db, effects[0]) && Leads(Take(db, effects[0]), effects[1..], last)
  }

  lemma {:induction false} LeadsConcat(db: Db, a: seq<Effect>, mid: Db, b: seq<Effect>, last: Db)
    requires Leads(db, a, mid) && Leads(mid, b, last)
    ensures Leads(db, a + b, last)
    decreases |a|
  {
    hide Enabled, Take;
    if a == [] {
      assert a + b == b;
    } else {
      assert (a + b)[1..] == a[1..] + b;
      LeadsConcat(Take(db, a[0]), a[1..], mid, b, last);
    }
  }

  /** The events of an accepted list that were not in the journal at their turn. */
  function NewEvents(db: Db, n: NodeCode, now: int, events: seq<Event>): seq<Effect>
    requires n in db.nodes && AllShaped(events) && IngestEvents(db, n, now, events).Ok?
    decreases |events|
  {
    if events == [] then []
    else
      (if events[0].id in db.journal then [] else [Accept(n, now, events[0])])
      + NewEvents(IngestEvent(db, n, now, events[0]).value.0, n, now, events[1..])
  }

  lemma {:induction false} NewEventsLead(db: Db, n: NodeCode, now: int, events: seq<Event>)
    requires n in db.nodes && AllShaped(events) && IngestEvents(db, n, now, events).Ok?
    ensures Leads(db, NewEvents(db, n, now, events), IngestEvents(db, n, now, events).value.0)
    decreases |events|
  {
    if events != [] {
      hide AcceptEvent;
      var next := IngestEvent(db, n, now, events[0]).value.0;
      NewEventsLead(next, n, now, events[1..]);
      var rest := NewEvents(next, n, now, events[1..]);
      if events[0].id in db.journal {
        assert NewEvents(db, n, now, events) == rest;
      } else {
        var f := Accept(n, now, events[0]);
        assert NewEvents(db, n, now, events) == [f] + rest;
        assert Enabled(db, f) && Take(db, f) == next;
        assert ([f] + rest)[1..] == rest;
      }
    }
  }

  /** What one action brings about; a refused or repeated request brings about nothing. */
  function EffectsOf(db: Db, a: Action): seq<Effect> {
    if !Admissible(db, a) then []
    else if !a.Post? then [Perform(a)]
    else if PostEvents(db, a.node, a.now, a.limit, a.events).1.Refused? then []
    else NewEvents(db, a.node, a.now, a.events)
  }

  function AllEffects(db: Db, actions: seq<Action>): seq<Effect> {
    if actions == [] then []
    else
      var before := actions[..|actions| - 1];
      AllEffects(db, before) + EffectsOf(Run(db, before), actions[|actions| - 1])
  }

  lemma EffectsLead(db: Db, a: Action)
    ensures Leads(db, EffectsOf(db, a), Step(db, a))
  {
    hide IngestEvents, NewEvents, AcceptEvent, Allocate, RequestReplacement, ApplyTallyItems, Acknowledge;
    if Admissible(db, a) && a.Post? {
      if PostEvents(db, a.node, a.now, a.limit, a.events).1.Accepted? {
        NewEventsLead(db, a.node, a.now, a.events);
      }
    } else if Admissible(db, a) {
      hide Step;
      assert Take(db, Perform(a)) == Step(db, a);
      assert [Perform(a)][1..] == [];
    }
  }

  /**
   After any schedule of requests - repeated, overlapping, split or failed - and administrator actions,
   the database is the fold of the accepted events, each applied once, with the administrator's actions
   in between.
   */
  lemma {:induction false} FoldOfAccepted(db: Db, actions: seq<Action>)
    ensures Leads(db, AllEffects(db, actions), Run(db, actions))
    decreases |actions|
  {
    hide Leads, Step, EffectsOf;
    if actions == [] {
      assert Leads(db, [], db) by { NoEffects(db); }
    } else {
      var before := actions[..|actions| - 1];
      var mid := Run(db, before);
      FoldOfAccepted(db, before);
      EffectsLead(mid, actions[|actions| - 1]);
      LeadsConcat(db, AllEffects(db, before), mid, EffectsOf(mid, actions[|actions| - 1]), Run(db, actions));
    }
  }

  lemma NoEffects(db: Db)
    ensures Leads(db, [], db)
  {
  }

  /** The accepted event ids among the effects. */
  function AcceptedIds(effects: seq<Effect>): (r: seq<Uuid>) {
    if effects == [] then []
    else (if effects[0].Accept? then [effects[0].event.id] else []) + AcceptedIds(effects[1..])
  }

  lemma TakeJournal(db: Db, f: Effect)
    requires Enabled(db, f)
    ensures JournalKept(db, Take(db, f))
    ensures f.Accept? ==> Take(db, f).journal.Keys == db.journal.Keys + {f.event.id}
    ensures f.Perform? ==> Take(db, f).journal == db.journal
  {
    match f {
      case Accept(n, now, e) => hide ApplyEvent;
      case Perform(a) => StepJournalSame(db, a);
    }
  }

  /** Each journalled event was accepted exactly once, and every accepted event is journalled. */
  lemma {:induction false} AcceptedOnce(db: Db, effects: seq<Effect>, last: Db)
    requires Leads(db, effects, last)
    ensures var ids := AcceptedIds(effects);
            && (forall i, j :: 0 <= i < j < |ids| ==> ids[i] != ids[j])
            && (forall i :: 0 <= i < |ids| ==> ids[i] !in db.journal)
            && last.journal.Keys == db.journal.Keys + (set i | i in ids)
    decreases |effects|
  {
    hide Enabled, Take;
    if effects != [] {
      var next := Take(db, effects[0]);
      TakeJournal(db, effects[0]);
      AcceptedOnce(next, effects[1..], last);
      var ids, rest := AcceptedIds(effects), AcceptedIds(effects[1..]);
      if effects[0].Accept? {
        assert effects[0].event.id !in db.journal by { NewlyAccepted(db, effects[0]); }
        assert ids == [effects[0].event.id] + rest;
        assert (set i | i in ids) == {effects[0].event.id} + (set i | i in rest);
      } else {
        assert ids == rest;
      }
    }
  }

  lemma NewlyAccepted(db: Db, f: Effect)
    requires f.Accept? && Enabled(db, f)
    ensures f.event.id !in db.journal
  {
    hide AcceptEvent;
  }
}
