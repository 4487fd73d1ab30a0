/** Delivery of queued commands to a Lite (app/services/network_ingest.py, list_unacknowledged_commands). */
module CommandQueue {
  import opened Records
  import opened NetworkDb

  /** One response holds at most this many bytes of commands. */
  const RESPONSE_BUDGET: nat := 4 * 1024 * 1024

  datatype PollError = CommandTooLarge

  /** `upserts`: this Lite has said that it understands PRODUCT_UPSERT commands. */
  predicate Addressed(command: Command, n: NodeCode, upserts: bool) {
    command.target == n && (command.payload.ProductUpsert? ==> upserts)
  }

  predicate Eligible(command: Command, n: NodeCode, upserts: bool) {
    Addressed(command, n, upserts) && !command.acknowledged
  }

  /** The ids, from `from` on, of the commands that await this Lite's acknowledgement, in id order. */
  function Pending(commands: seq<Command>, n: NodeCode, upserts: bool, from: nat): (ids: seq<nat>)
    requires from <= |commands|
    decreases |commands| - from
  {
    if from == |commands| then []
    else
      var rest := Pending(commands, n, upserts, from + 1);
      if Eligible(commands[from], n, upserts) then [from] + rest else rest
  }

  /** The pending ids are exactly the eligible positions, strictly increasing. */
  lemma {:induction false} PendingIds(commands: seq<Command>, n: NodeCode, upserts: bool, from: nat)
    requires from <= |commands|
    ensures var ids := Pending(commands, n, upserts, from);
            && (forall i :: i in ids <==> from <= i < |commands| && Eligible(commands[i], n, upserts))
            && (forall j, k :: 0 <= j < k < |ids| ==> ids[j] < ids[k])
    decreases |commands| - from
  {
    hide Eligible;
    if from < |commands| {
      PendingIds(commands, n, upserts, from + 1);
      var ids, rest := Pending(commands, n, upserts, from), Pending(commands, n, upserts, from + 1);
      if Eligible(commands[from], n, upserts) {
        assert ids == [from] + rest;
        assert forall k :: 0 <= k < |rest| ==> rest[k] in rest;
      }
    }
  }

  /** How many rows the query fetches. */
  function WindowSize(limit: int): (size: nat)
    ensures 1 <= size <= 100
  {
    if limit < 1 then 1 else if limit > 100 then 100 else limit
  }

  function Window(commands: seq<Command>, n: NodeCode, upserts: bool, limit: int): seq<nat> {
    var ids := Pending(commands, n, upserts, 0);
    if |ids| <= WindowSize(limit) then ids else ids[..WindowSize(limit)]
  }

  /** A poll fetches the oldest pending commands: as many as were asked for, but at least one and at most a hundred. */
  lemma WindowOldest(commands: seq<Command>, n: NodeCode, upserts: bool, limit: int)
    ensures var ids, window := Pending(commands, n, upserts, 0), Window(commands, n, upserts, limit);
            && window <= ids && |window| <= 100 && (ids != [] ==> window != [])
            && (1 <= limit <= 100 && limit <= |ids| ==> |window| == limit)
            && (|window| < |ids| ==> |window| == 100 || |window| == limit || (|window| == 1 && limit < 1))
  {
    hide Pending;
  }

  /** The bytes that these commands take in a response; `bytes(i)` is the rendered length of command `i`. */
  function Total(ids: seq<nat>, bytes: nat -> nat): nat {
    if ids == [] then 0 else Total(ids[..|ids| - 1], bytes) + bytes(ids[|ids| - 1])
  }

  /** The first too large command that the poll reaches, because all commands before it fit together. */
  ghost predicate ReachesTooLarge(window: seq<nat>, bytes: nat -> nat) {
    exists k :: 0 <= k < |window| && bytes(window[k]) > RESPONSE_BUDGET && Total(window[..k], bytes) <= RESPONSE_BUDGET
  }

  /** The longest prefix of the window that fits the budget. */
  ghost predicate LongestFitting(result: seq<nat>, window: seq<nat>, bytes: nat -> nat) {
    && result <= window
    && Total(result, bytes) <= RESPONSE_BUDGET
    && (|result| < |window| ==> Total(window[..|result| + 1], bytes) > RESPONSE_BUDGET)
  }

  lemma {:induction false} TotalGrows(ids: seq<nat>, bytes: nat -> nat, j: nat, k: nat)
    requires j <= k <= |ids|
    ensures Total(ids[..j], bytes) <= Total(ids[..k], bytes)
    decreases k - j
  {
    if j < k {
      TotalGrows(ids, bytes, j, k - 1);
      assert ids[..k][..k - 1] == ids[..k - 1];
    }
  }

  /** One poll. */
  method ListUnacknowledged(commands: seq<Command>, n: NodeCode, upserts: bool, limit: int, bytes: nat -> nat)
    returns (r: Result<seq<nat>, PollError>)
    ensures var window := Window(commands, n, upserts, limit);
            && (r.Err? <==> ReachesTooLarge(window, bytes))
            && (r.Ok? ==> LongestFitting(r.value, window, bytes))
  {
    var window := Window(commands, n, upserts, limit);
    var result: seq<nat> := [];
    var used := 0;
    while |result| < |window|
      invariant |result| <= |window| && result == window[..|result|]
      invariant used == Total(result, bytes) <= RESPONSE_BUDGET
      invariant forall k :: 0 <= k < |result| ==> bytes(window[k]) <= RESPONSE_BUDGET
      decreases |window| - |result|
    {
      var id := window[|result|];
      assert window[..|result| + 1][..|result|] == result;
      if bytes(id) > RESPONSE_BUDGET {
        assert Total(window[..|result|], bytes) <= RESPONSE_BUDGET;
        return Err(CommandTooLarge);
      }
      if used + bytes(id) > RESPONSE_BUDGET {
        break;
      }
      assert (result + [id])[..|result|] == result;
      result := result + [id];
      used := used + bytes(id);
    }
    forall k | |result| < k < |window| && |result| < |window| ensures Total(window[..k], bytes) > RESPONSE_BUDGET {
      TotalGrows(window, bytes, |result| + 1, k);
    }
    assert result == window ==> window[..|result|] == window;
    return Ok(result);
  }

  // ---------------------------------------------------------------- the poll as a function

  /** How many commands of the window fit. */
  function Fitting(window: seq<nat>, bytes: nat -> nat, k: nat): (r: nat)
    requires k <= |window| && Total(window[..k], bytes) <= RESPONSE_BUDGET
    ensures k <= r <= |window| && LongestFitting(window[..r], window, bytes)
    decreases |window| - k
  {
    if k == |window| || Total(window[..k + 1], bytes) > RESPONSE_BUDGET then k else Fitting(window, bytes, k + 1)
  }

  function Poll(commands: seq<Command>, n: NodeCode, upserts: bool, limit: int, bytes: nat -> nat): (result: seq<nat>)
    ensures LongestFitting(result, Window(commands, n, upserts, limit), bytes)
  {
    var window := Window(commands, n, upserts, limit);
    window[..Fitting(window, bytes, 0)]
  }

  /** The longest fitting prefix is unique, so `Poll` is what ListUnacknowledged returns. */
  lemma PollUnique(commands: seq<Command>, n: NodeCode, upserts: bool, limit: int, bytes: nat -> nat, result: seq<nat>)
    requires LongestFitting(result, Window(commands, n, upserts, limit), bytes)
    ensures result == Poll(commands, n, upserts, limit, bytes)
  {
    var window, other := Window(commands, n, upserts, limit), Poll(commands, n, upserts, limit, bytes);
    assert result == window[..|result|] && other == window[..|other|];
    if |result| < |other| {
      TotalGrows(window, bytes, |result| + 1, |other|);
    } else if |other| < |result| {
      TotalGrows(window, bytes, |other| + 1, |result|);
    }
  }

  ghost predicate AllFit(commands: seq<Command>, n: NodeCode, upserts: bool, bytes: nat -> nat) {
    forall i | 0 <= i < |commands| && Addressed(commands[i], n, upserts) :: bytes(i) <= RESPONSE_BUDGET
  }

  /** When every command fits a response, a poll of a non-empty queue succeeds and returns its first commands. */
  lemma PollProgresses(commands: seq<Command>, n: NodeCode, upserts: bool, limit: int, bytes: nat -> nat)
    requires AllFit(commands, n, upserts, bytes)
    ensures var result, pending := Poll(commands, n, upserts, limit, bytes), Pending(commands, n, upserts, 0);
            && !ReachesTooLarge(Window(commands, n, upserts, limit), bytes)
            && result <= pending
            && |result| <= WindowSize(limit)
            && (pending != [] ==> result != [])
  {
    var window := Window(commands, n, upserts, limit);
    PendingIds(commands, n, upserts, 0);
    assert forall k :: 0 <= k < |window| ==> window[k] in Pending(commands, n, upserts, 0);
    if window != [] {
      assert window[..1][..0] == [];
      assert Total(window[..1], bytes) == bytes(window[0]);
    }
  }

  // ---------------------------------------------------------------- acknowledging

  function Acknowledged(commands: seq<Command>, ids: seq<nat>): (next: seq<Command>) {
    seq(|commands|, i requires 0 <= i < |commands| => commands[i].(acknowledged := commands[i].acknowledged || i in ids))
  }

  lemma {:induction false} PendingSame(a: seq<Command>, b: seq<Command>, n: NodeCode, upserts: bool, from: nat)
    requires |a| == |b| && from <= |a|
    requires forall i :: from <= i < |a| ==> (Eligible(a[i], n, upserts) <==> Eligible(b[i], n, upserts))
    ensures Pending(a, n, upserts, from) == Pending(b, n, upserts, from)
    decreases |a| - from
  {
    if from < |a| {
      PendingSame(a, b, n, upserts, from + 1);
    }
  }

  /** Acknowledging the first `k` pending commands leaves exactly the others pending. */
  lemma {:induction false} AcknowledgePrefix(commands: seq<Command>, n: NodeCode, upserts: bool, from: nat, k: nat)
    requires from <= |commands| && k <= |Pending(commands, n, upserts, from)|
    ensures var ids := Pending(commands, n, upserts, from);
            Pending(Acknowledged(commands, ids[..k]), n, upserts, from) == ids[k..]
    decreases |commands| - from
  {
    var ids := Pending(commands, n, upserts, from);
    var next := Acknowledged(commands, ids[..k]);
    if k == 0 {
      PendingSame(commands, next, n, upserts, from);
    } else {
      PendingIds(commands, n, upserts, from + 1);
      var rest := Pending(commands, n, upserts, from + 1);
      hide Pending;
      if Eligible(commands[from], n, upserts) {
        AcknowledgePrefix(commands, n, upserts, from + 1, k - 1);
        assert ids == [from] + rest by { PendingHead(commands, n, upserts, from); }
        assert ids[..k] == [from] + rest[..k - 1];
        PendingSame(Acknowledged(commands, rest[..k - 1]), next, n, upserts, from + 1);
        assert ids[k..] == rest[k - 1..];
      } else {
        assert ids == rest by { PendingHead(commands, n, upserts, from); }
        AcknowledgePrefix(commands, n, upserts, from + 1, k);
      }
      assert !Eligible(next[from], n, upserts);
      PendingHead(next, n, upserts, from);
    }
  }

  lemma PendingHead(commands: seq<Command>, n: NodeCode, upserts: bool, from: nat)
    requires from < |commands|
    ensures Pending(commands, n, upserts, from)
            == (if Eligible(commands[from], n, upserts) then [from] else []) + Pending(commands, n, upserts, from + 1)
  {
  }

  // ---------------------------------------------------------------- draining the queue

  /** Polling and acknowledging until nothing is returned; poll number `round` may use its own limit. */
  function Drain(commands: seq<Command>, n: NodeCode, upserts: bool, limits: nat -> int, round: nat, bytes: nat -> nat)
    : (delivered: seq<nat>)
    decreases |Pending(commands, n, upserts, 0)|, 1
  {
    var result := Poll(commands, n, upserts, limits(round), bytes);
    var pending := Pending(commands, n, upserts, 0);
    if result == [] then []
    else
      assert Acknowledged(commands, result) == Acknowledged(commands, pending[..|result|])
             && Pending(Acknowledged(commands, result), n, upserts, 0) == pending[|result|..]
      by {
        assert result == pending[..|result|];
        AcknowledgePrefix(commands, n, upserts, 0, |result|);
      }
      result + Drain(Acknowledged(commands, result), n, upserts, limits, round + 1, bytes)
  }

  /** Draining delivers every pending command exactly once, in id order. */
  lemma {:induction false} DrainDelivers(commands: seq<Command>, n: NodeCode, upserts: bool, limits: nat -> int, round: nat, bytes: nat -> nat)
    requires AllFit(commands, n, upserts, bytes)
    ensures Drain(commands, n, upserts, limits, round, bytes) == Pending(commands, n, upserts, 0)
    decreases |Pending(commands, n, upserts, 0)|
  {
    hide Poll, Pending, Acknowledged, LongestFitting, ReachesTooLarge, AllFit;
    var result, pending := Poll(commands, n, upserts, limits(round), bytes), Pending(commands, n, upserts, 0);
    PollProgresses(commands, n, upserts, limits(round), bytes);
    if result != [] {
      assert result == pending[..|result|];
      AcknowledgePrefix(commands, n, upserts, 0, |result|);
      var next := Acknowledged(commands, result);
      StillFit(commands, result, n, upserts, bytes);
      DrainDelivers(next, n, upserts, limits, round + 1, bytes);
    }
  }

  lemma StillFit(commands: seq<Command>, ids: seq<nat>, n: NodeCode, upserts: bool, bytes: nat -> nat)
    requires AllFit(commands, n, upserts, bytes)
    ensures AllFit(Acknowledged(commands, ids), n, upserts, bytes)
  {
  }

  // ---------------------------------------------------------------- what was and what will be delivered

  /** The queue, and the commands that the Lite has acknowledged, in that order. */
  datatype Delivery = Delivery(commands: seq<Command>, log: seq<nat>)

  /** The ids of all commands for this Lite, acknowledged or not. */
  function AllAddressed(commands: seq<Command>, n: NodeCode, upserts: bool): seq<nat> {
    if commands == [] then []
    else
      var before := AllAddressed(commands[..|commands| - 1], n, upserts);
      if Addressed(commands[|commands| - 1], n, upserts) then before + [|commands| - 1] else before
  }

  lemma {:induction false} PendingAppend(commands: seq<Command>, command: Command, n: NodeCode, upserts: bool, from: nat)
    requires from <= |commands|
    ensures Pending(commands + [command], n, upserts, from)
            == Pending(commands, n, upserts, from) + (if Eligible(command, n, upserts) then [|commands|] else [])
    decreases |commands| - from
  {
    if from < |commands| {
      PendingAppend(commands, command, n, upserts, from + 1);
    } else {
      assert Pending(commands + [command], n, upserts, |commands| + 1) == [];
    }
  }

  lemma {:induction false} AddressedSame(a: seq<Command>, b: seq<Command>, n: NodeCode, upserts: bool)
    requires |a| == |b| && forall i :: 0 <= i < |a| ==> (Addressed(a[i], n, upserts) <==> Addressed(b[i], n, upserts))
    ensures AllAddressed(a, n, upserts) == AllAddressed(b, n, upserts)
  {
    if a != [] {
      AddressedSame(a[..|a| - 1], b[..|b| - 1], n, upserts);
    }
  }

  ghost predicate InOrder(d: Delivery, n: NodeCode, upserts: bool) {
    d.log + Pending(d.commands, n, upserts, 0) == AllAddressed(d.commands, n, upserts)
  }

  lemma EnqueueInOrder(d: Delivery, n: NodeCode, upserts: bool, command: Command)
    requires InOrder(d, n, upserts) && !command.acknowledged
    ensures InOrder(d.(commands := d.commands + [command]), n, upserts)
  {
    PendingAppend(d.commands, command, n, upserts, 0);
    assert (d.commands + [command])[..|d.commands|] == d.commands;
    hide Pending;
  }

  lemma PollPrefix(commands: seq<Command>, n: NodeCode, upserts: bool, limit: int, bytes: nat -> nat)
    ensures Poll(commands, n, upserts, limit, bytes) <= Pending(commands, n, upserts, 0)
  {
  }

  lemma KeptInOrder(d: Delivery, n: NodeCode, upserts: bool, done: seq<nat>)
    requires InOrder(d, n, upserts) && done <= Pending(d.commands, n, upserts, 0)
    ensures InOrder(Delivery(Acknowledged(d.commands, done), d.log + done), n, upserts)
  {
    hide Pending, Acknowledged, AllAddressed;
    var pending := Pending(d.commands, n, upserts, 0);
    assert done == pending[..|done|];
    AcknowledgePrefix(d.commands, n, upserts, 0, |done|);
    AcknowledgedAddressed(d.commands, done, n, upserts);
    assert pending == done + pending[|done|..];
    assert (d.log + done) + pending[|done|..] == d.log + pending;
  }

  lemma AcknowledgedAddressed(commands: seq<Command>, ids: seq<nat>, n: NodeCode, upserts: bool)
    ensures AllAddressed(Acknowledged(commands, ids), n, upserts) == AllAddressed(commands, n, upserts)
  {
    AddressedSame(commands, Acknowledged(commands, ids), n, upserts);
  }

  lemma NothingInOrder(n: NodeCode, upserts: bool)
    ensures InOrder(Delivery([], []), n, upserts)
  {
  }
}
