/** Delivery states shared by the client mailbox and the server's event table
    (server/async_comm/mailbox.py, server/comm/service.py). */
module DeliveryStatus {

  datatype Status = PendingDelivery | Delivered | Confirmed | Revised | NeedsHumanReview

  predicate Terminal(s: Status) {
    s.Confirmed? || s.Revised? || s.NeedsHumanReview?
  }

  // The transition table; terminal states have no successor.
  function Allowed(s: Status): set<Status> {
    match s
    case PendingDelivery => {Delivered, Confirmed, Revised, NeedsHumanReview}
    case Delivered => {Confirmed, Revised, NeedsHumanReview}
    case _ => {}
  }

  // Zero or more moves along the table.
  predicate CanReach(a: Status, b: Status) {
    a == b || b in Allowed(a)
  }

  function Rank(s: Status): nat {
    if s.PendingDelivery? then 0 else if s.Delivered? then 1 else 2
  }

  lemma CanReachIsAnOrder(a: Status, b: Status, c: Status)
    ensures CanReach(a, b) && CanReach(b, c) ==> CanReach(a, c)
    ensures CanReach(a, b) ==> Rank(a) <= Rank(b) && (Terminal(a) ==> b == a)
    ensures CanReach(a, b) && CanReach(b, a) ==> a == b
    ensures CanReach(a, b) && a != b ==> Rank(a) < Rank(b)
  {}
}

/** The two-box mailbox: dedup by event id, a status index that outlives the
    messages, and the laws every run of its operations obeys. */
module Mailboxes {
  import opened Collections
  import opened CommTypes
  import opened DeliveryStatus

  type StatusMap = map<Id, Status>

  datatype Box = Box(inbox: seq<Event>, outbox: seq<Event>, state: StatusMap)
  {
    ghost predicate Valid() {
      && UniqueIds(inbox) && UniqueIds(outbox)
      && (forall id :: HasId(inbox, id) ==> id in state && !HasId(outbox, id))
      && (forall id :: HasId(outbox, id) ==> id in state)
    }
  }

  datatype Outcome = Updated | UnknownId | IllegalMove

  function AppendOutbox(b: Box, e: Event): Box {
    if e.id in b.state then b
    else b.(outbox := b.outbox + [e], state := b.state[e.id := PendingDelivery])
  }

  function AppendInbox(b: Box, e: Event): Box {
    if e.id in b.state then b
    else b.(inbox := b.inbox + [e], state := b.state[e.id := Delivered])
  }

  function UpdateOutcome(state: StatusMap, id: Id, s: Status): Outcome {
    if id !in state then UnknownId
    else if CanReach(state[id], s) then Updated
    else IllegalMove
  }

  function SetStatus(state: StatusMap, id: Id, s: Status): StatusMap {
    if UpdateOutcome(state, id, s) == Updated then state[id := s] else state
  }

  function HasStatus(state: StatusMap, s: Status): Event -> bool {
    (e: Event) => e.id in state && state[e.id] == s
  }

  function Selected(state: StatusMap, status: Option<Status>): Event -> bool {
    (e: Event) => status.None? || (e.id in state && state[e.id] == status.value)
  }

  function Take<T>(limit: Option<nat>, s: seq<T>): seq<T> {
    if limit.Some? && limit.value < |s| then s[..limit.value] else s
  }

  function NotIn(ids: set<Id>): Event -> bool {
    (e: Event) => e.id !in ids
  }

  function RemoveDelivered(b: Box, ids: set<Id>): Box {
    b.(outbox := Filter(NotIn(ids), b.outbox))
  }

  /** Outbox messages still waiting for delivery. */
  function Pending(b: Box): seq<Event> {
    Filter(HasStatus(b.state, PendingDelivery), b.outbox)
  }

  /** What loading a box file returns: without limit and status all of it; never more than
      the limit, and nothing of another status; without limit everything of the status. */
  lemma LoadedAre(state: StatusMap, file: seq<Event>, status: Option<Status>, limit: Option<nat>)
    ensures var events := Take(limit, Filter(Selected(state, status), file));
      && (limit.None? && status.None? ==> events == file)
      && (limit.Some? ==> |events| <= limit.value)
      && (forall e :: e in events ==> e in file && (status.Some? ==> e.id in state && state[e.id] == status.value))
      && (limit.None? && status.Some? ==>
            forall e :: e in file && e.id in state && state[e.id] == status.value ==> e in events)
  {
    hide Filter, Take;
    var selected := Filter(Selected(state, status), file);
    FilterMembers(Selected(state, status), file);
    FilterAllIff(Selected(state, status), file);
    TakeLaws(limit, selected);
  }

  lemma TakeLaws(limit: Option<nat>, es: seq<Event>)
    ensures Take(limit, es) <= es && (limit.None? ==> Take(limit, es) == es)
    ensures limit.Some? ==> |Take(limit, es)| == if limit.value < |es| then limit.value else |es|
    ensures forall e :: e in Take(limit, es) ==> e in es
  {}

  class Mailbox {
    var inbox: seq<Event>
    var outbox: seq<Event>
    var state: StatusMap

    ghost function Contents(): Box
      reads this
    {
      Box(inbox, outbox, state)
    }

    constructor ()
      ensures Contents() == Box([], [], map[])
    {
      inbox, outbox, state := [], [], map[];
    }

    method AppendToOutbox(e: Event) returns (id: Id)
      modifies this
      ensures id == e.id && Contents() == AppendOutbox(old(Contents()), e)
    {
      id := e.id;
      if e.id in state {
        return;
      }
      outbox := outbox + [e];
      state := state[e.id := PendingDelivery];
    }

    method AppendToInbox(e: Event) returns (id: Id)
      modifies this
      ensures id == e.id && Contents() == AppendInbox(old(Contents()), e)
    {
      id := e.id;
      if e.id in state {
        return;
      }
      inbox := inbox + [e];
      state := state[e.id := Delivered];
    }

    method UpdateStatus(id: Id, newStatus: Status) returns (r: Outcome)
      modifies this`state
      ensures r == UpdateOutcome(old(state), id, newStatus)
      ensures state == SetStatus(old(state), id, newStatus)
    {
      if id !in state {
        return UnknownId;
      }
      var current := state[id];
      if newStatus == current {
        assert state[id := newStatus] == state;
        return Updated;
      }
      if newStatus !in Allowed(current) {
        return IllegalMove;
      }
      state := state[id := newStatus];
      r := Updated;
    }

    /** Scans a box file in order, keeping events of one status (or all), up to `limit`. */
    method LoadEvents(file: seq<Event>, status: Option<Status>, limit: Option<nat>) returns (events: seq<Event>)
      ensures events == Take(limit, Filter(Selected(state, status), file))
    {
      events := [];
      var keep := Selected(state, status);
      for i := 0 to |file|
        invariant events == Filter(keep, file[..i])
        invariant limit.Some? ==> |events| <= limit.value
      {
        FilterStep(keep, file, i);
        if keep(file[i]) {
          if limit.Some? && |events| >= limit.value {
            FilterConcat(keep, file[..i], file[i..]);
            assert file == file[..i] + file[i..];
            return;
          }
          events := events + [file[i]];
        }
      }
      assert file[..|file|] == file;
    }

    method PendingDeliveryCount() returns (count: nat)
      ensures count == |Pending(Contents())|
    {
      count := 0;
      var keep := HasStatus(state, PendingDelivery);
      for i := 0 to |outbox|
        invariant count == |Filter(keep, outbox[..i])|
      {
        FilterStep(keep, outbox, i);
        if outbox[i].id in state && state[outbox[i].id] == PendingDelivery {
          count := count + 1;
        }
      }
      assert outbox[..|outbox|] == outbox;
    }

    method RemoveDeliveredMessages(ids: set<Id>) returns (removed: nat)
      modifies this
      ensures Contents() == RemoveDelivered(old(Contents()), ids)
      ensures removed == |old(outbox)| - |outbox|
    {
      var kept := [];
      removed := 0;
      for i := 0 to |outbox|
        invariant Contents() == old(Contents())
        invariant kept == Filter(NotIn(ids), outbox[..i])
        invariant removed + |kept| == i
      {
        FilterStep(NotIn(ids), outbox, i);
        if outbox[i].id in ids {
          removed := removed + 1;
        } else {
          kept := kept + [outbox[i]];
        }
      }
      assert outbox[..|outbox|] == outbox;
      outbox := kept;
    }
  }

  // ----- Runs -----

  datatype Op = Send(e: Event) | Receive(e: Event) | Move(id: Id, s: Status) | Remove(ids: set<Id>)

  function Apply(b: Box, op: Op): Box {
    match op
    case Send(e) => AppendOutbox(b, e)
    case Receive(e) => AppendInbox(b, e)
    case Move(id, s) => b.(state := SetStatus(b.state, id, s))
    case Remove(ids) => RemoveDelivered(b, ids)
  }

  function Run(b: Box, ops: seq<Op>): Box
    decreases |ops|
  {
    if ops == [] then b else Run(Apply(b, ops[0]), ops[1..])
  }

  // What may happen to a status index between two moments of a run.
  ghost predicate Advances(s: StatusMap, t: StatusMap) {
    s.Keys <= t.Keys && forall id :: id in s ==> CanReach(s[id], t[id])
  }

  lemma ApplyLaws(b: Box, op: Op)
    requires b.Valid()
    ensures Apply(b, op).Valid()
    ensures Advances(b.state, Apply(b, op).state)
    ensures b.inbox <= Apply(b, op).inbox
    ensures forall id :: id in b.state && !HasId(b.outbox, id) ==> !HasId(Apply(b, op).outbox, id)
    ensures forall id :: id in b.state && !HasId(b.inbox, id) ==> !HasId(Apply(b, op).inbox, id)
  {
    var c := Apply(b, op);
    match op
    case Send(e) =>
      if e.id !in b.state {
        assert forall id :: HasId(c.outbox, id) ==> HasId(b.outbox, id) || id == e.id by {
          AppendedIds(b.outbox, e);
        }
      }
    case Receive(e) =>
      if e.id !in b.state {
        AppendedIds(b.inbox, e);
      }
    case Move(id, s) =>
    case Remove(ids) =>
      FilterKeepsUniqueIds(NotIn(ids), b.outbox);
  }

  lemma AppendedIds(es: seq<Event>, e: Event)
    ensures forall id :: HasId(es + [e], id) <==> HasId(es, id) || id == e.id
  {
    forall id ensures HasId(es + [e], id) <==> HasId(es, id) || id == e.id {
      if HasId(es, id) {
        assert (es + [e])[Find(es, id)].id == id;
      }
      assert (es + [e])[|es|] == e;
    }
  }

  /** In every run ids stay unique and disjoint across the boxes, statuses move
      only along the table (so rank never falls and terminal states absorb), the
      inbox is append-only, and an id once recorded never enters a box again:
      removed messages leave a tombstone. */
  lemma {:induction false} RunLaws(b: Box, ops: seq<Op>)
    requires b.Valid()
    ensures Run(b, ops).Valid()
    ensures Advances(b.state, Run(b, ops).state)
    ensures b.inbox <= Run(b, ops).inbox
    ensures forall id :: id in b.state && !HasId(b.outbox, id) ==> !HasId(Run(b, ops).outbox, id)
    ensures forall id :: id in b.state && !HasId(b.inbox, id) ==> !HasId(Run(b, ops).inbox, id)
    decreases |ops|
  {
    if ops == [] {
    } else {
      var c := Apply(b, ops[0]);
      ApplyLaws(b, ops[0]);
      RunLaws(c, ops[1..]);
      var d := Run(c, ops[1..]);
      forall id | id in b.state ensures CanReach(b.state[id], d.state[id]) {
        CanReachIsAnOrder(b.state[id], c.state[id], d.state[id]);
      }
    }
  }

  /** Removal does not look at statuses: it loses no waiting message exactly when
      no requested id belongs to a message that is still pending. */
  lemma RemoveLosesNothingIff(b: Box, ids: set<Id>)
    ensures Pending(RemoveDelivered(b, ids)) == Pending(b)
       <==> forall e :: e in Pending(b) ==> e.id !in ids
  {
    var keep, wait := NotIn(ids), HasStatus(b.state, PendingDelivery);
    var both := (e: Event) => keep(e) && wait(e);
    FilterTwice(keep, wait, both, b.outbox);
    FilterTwice(wait, keep, both, b.outbox);
    if forall e :: e in Pending(b) ==> e.id !in ids {
      FilterAllIff(keep, Pending(b));
    } else {
      var e :| e in Pending(b) && e.id in ids;
      FilterMembers(wait, Filter(keep, b.outbox));
      FilterMembers(keep, b.outbox);
      assert e !in Pending(RemoveDelivered(b, ids));
    }
  }

  // A message just queued is lost when its id is removed, and its id stays taken: the
  // event cannot be queued again.
  lemma RemovalLosesWaiting(e: Event)
    ensures var queued := AppendOutbox(Box([], [], map[]), e);
      var after := RemoveDelivered(queued, {e.id});
      Pending(queued) == [e] && Pending(after) == [] && AppendOutbox(after, e) == after
  {
    var queued := AppendOutbox(Box([], [], map[]), e);
    assert queued.outbox == [e] && [e][1..] == [];
    FilterAllIff(HasStatus(queued.state, PendingDelivery), [e]);
    FilterNone(NotIn({e.id}), [e]);
  }
}
