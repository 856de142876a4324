/** The server's event table (server/comm/service.py): recording questions and
    answers, settling simulated answers, and finding the thread of an event. */
module CommServices {
  import opened Collections
  import opened CommTypes
  import opened DeliveryStatus

  // `revision` is the revised answer added to the payload, if any.
  datatype Body = Body(text: Text, revision: Option<Text>)

  datatype Row = Row(
    id: Id, kind: EventKind, fromMember: PeerId, toPeer: PeerId, time: Time, body: Body,
    inReplyTo: Option<Id>, degraded: bool, realtime: bool, basedOn: Text, snapshotStale: bool, status: Status)

  // Rows in creation order; the id is the primary key.
  type Table = seq<Row>

  datatype Error = NoSuchEvent | NotSimulated | AlreadySettled | BadVerdict
  datatype Result<+T> = Ok(value: T) | Err(error: Error)

  predicate Has(t: Table, id: Id) {
    exists i :: 0 <= i < |t| && t[i].id == id
  }

  function IndexOf(t: Table, id: Id): (i: nat)
    requires Has(t, id)
    ensures i < |t| && t[i].id == id
    ensures forall j :: 0 <= j < i ==> t[j].id != id
  {
    if t[0].id == id then 0
    else
      assert Has(t[1..], id) by {
        var k :| 0 <= k < |t| && t[k].id == id;
        assert t[1..][k-1] == t[k];
      }
      1 + IndexOf(t[1..], id)
  }

  // ----- Operations -----

  function AskRow(
    id: Id, from_: PeerId, to: PeerId, question: Text, inReplyTo: Option<Id>, online: bool, now: Time): Row
  {
    Row(id, Ask, from_, to, now, Body(question, None), inReplyTo, !online, online, 0, false,
        if online then Delivered else PendingDelivery)
  }

  function AnswerRow(id: Id, ask: Row, answer: Text, realtime: bool, basedOn: Text, stale: bool, now: Time): Row {
    Row(id, if realtime then RealtimeAnswer else SimulatedAnswer, ask.toPeer, ask.fromMember, now, Body(answer, None),
        Some(ask.id), !realtime, realtime, basedOn, stale, if realtime then Status.Confirmed else PendingDelivery)
  }

  function StatusOnAnswer(s: Status, realtime: bool): Status {
    if s == PendingDelivery then (if realtime then Status.Confirmed else Delivered)
    else if s == Delivered && realtime then Status.Confirmed
    else s
  }

  // What a successful `update_reconciliation` does to its row.
  function Reconciled(r: Row, verdict: Status, revised: Option<Text>): Row {
    r.(status := verdict,
       body := if verdict == Status.Revised && revised.Some? then r.body.(revision := revised) else r.body)
  }

  function ReconciliationError(t: Table, id: Id, verdict: Status): Option<Error> {
    if !Terminal(verdict) then Some(BadVerdict)
    else if !Has(t, id) then Some(NoSuchEvent)
    else if t[IndexOf(t, id)].kind != SimulatedAnswer then Some(NotSimulated)
    else if Terminal(t[IndexOf(t, id)].status) then Some(AlreadySettled)
    else None
  }

  datatype Op =
    | RecordAsk(id: Id, from_: PeerId, to: PeerId, question: Text, inReplyTo: Option<Id>, online: bool, now: Time)
    | RecordAnswer(id: Id, ask: Id, answer: Text, realtime: bool, basedOn: Text, stale: bool, now: Time)
    | Reconcile(event: Id, verdict: Status, revised: Option<Text>)

  function Apply(t: Table, op: Op): Table {
    match op
    case RecordAsk(id, from_, to, question, inReplyTo, online, now) =>
      t + [AskRow(id, from_, to, question, inReplyTo, online, now)]
    case RecordAnswer(id, ask, answer, realtime, basedOn, stale, now) =>
      if !Has(t, ask) then t
      else
        var i := IndexOf(t, ask);
        var moved := t[i := t[i].(status := StatusOnAnswer(t[i].status, realtime))];
        moved + [AnswerRow(id, t[i], answer, realtime, basedOn, stale, now)]
    case Reconcile(event, verdict, revised) =>
      if ReconciliationError(t, event, verdict).Some? then t
      else
        var i := IndexOf(t, event);
        t[i := Reconciled(t[i], verdict, revised)]
  }

  class CommService {
    var rows: Table

    constructor ()
      ensures rows == []
    {
      rows := [];
    }

    method Record(id: Id, from_: PeerId, to: PeerId, question: Text, inReplyTo: Option<Id>, online: bool, now: Time)
      returns (event: Row)
      modifies this
      ensures rows == Apply(old(rows), RecordAsk(id, from_, to, question, inReplyTo, online, now))
      ensures event == AskRow(id, from_, to, question, inReplyTo, online, now)
    {
      event := AskRow(id, from_, to, question, inReplyTo, online, now);
      rows := rows + [event];
    }

    /** Adds the answer and moves the status of the answered event. */
    method Answer(id: Id, ask: Id, answer: Text, realtime: bool, basedOn: Text, stale: bool, now: Time)
      returns (r: Result<Row>)
      modifies this
      ensures rows == Apply(old(rows), RecordAnswer(id, ask, answer, realtime, basedOn, stale, now))
      ensures r.Ok? <==> Has(old(rows), ask)
      ensures r.Err? ==> r.error == NoSuchEvent
      ensures r.Ok? ==>
        r.value == AnswerRow(id, old(rows)[IndexOf(old(rows), ask)], answer, realtime, basedOn, stale, now)
    {
      if !Has(rows, ask) {
        return Err(NoSuchEvent);
      }
      var i := IndexOf(rows, ask);
      var asked := rows[i];
      var answerRow := AnswerRow(id, asked, answer, realtime, basedOn, stale, now);
      if asked.status == PendingDelivery {
        rows := rows[i := asked.(status := if !realtime then Delivered else Status.Confirmed)];
      } else if asked.status == Delivered && realtime {
        rows := rows[i := asked.(status := Status.Confirmed)];
      } else {
        assert rows[i := asked.(status := asked.status)] == rows;
      }
      rows := rows + [answerRow];
      r := Ok(answerRow);
    }

    /** Settles a simulated answer once; every refusal leaves the table alone. */
    method UpdateReconciliation(event: Id, verdict: Status, revised: Option<Text>) returns (r: Result<Row>)
      modifies this
      ensures rows == Apply(old(rows), Reconcile(event, verdict, revised))
      ensures var e := ReconciliationError(old(rows), event, verdict);
        if e.Some? then r == Err(e.value)
        else r == Ok(Reconciled(old(rows)[IndexOf(old(rows), event)], verdict, revised))
    {
      if !Terminal(verdict) {
        return Err(BadVerdict);
      }
      if !Has(rows, event) {
        return Err(NoSuchEvent);
      }
      var i := IndexOf(rows, event);
      if rows[i].kind != SimulatedAnswer {
        return Err(NotSimulated);
      }
      if Terminal(rows[i].status) {
        return Err(AlreadySettled);
      }
      var row := rows[i].(status := verdict);
      if verdict == Status.Revised && revised.Some? {
        row := row.(body := row.body.(revision := revised));
      }
      rows := rows[i := row];
      r := Ok(row);
    }

    /** Climbs to the root of an event's reply tree, then collects the root and
        its direct replies in creation order. */
    method GetThread(event: Id) returns (r: Result<(Id, seq<Row>)>)
      requires WellFormed(rows)
      ensures r.Err? <==> !Has(rows, event)
      ensures r.Err? ==> r.error == NoSuchEvent
      ensures r.Ok? ==> r.value.0 == rows[Root(rows, IndexOf(rows, event))].id
      ensures r.Ok? ==> r.value.1 == Filter(InThreadOf(r.value.0), rows)
    {
      if !Has(rows, event) {
        return Err(NoSuchEvent);
      }
      var current: nat := IndexOf(rows, event);
      ghost var start := current;
      while rows[current].inReplyTo.Some?
        invariant current < |rows| && Root(rows, current) == Root(rows, start)
        decreases current
      {
        if !Has(rows, rows[current].inReplyTo.value) {
          break;
        }
        ParentPrecedes(rows, current);
        current := IndexOf(rows, rows[current].inReplyTo.value);
      }
      var root := rows[current].id;
      var items := [];
      for i := 0 to |rows|
        invariant items == Filter(InThreadOf(root), rows[..i])
      {
        FilterStep(InThreadOf(root), rows, i);
        if rows[i].id == root || rows[i].inReplyTo == Some(root) {
          items := items + [rows[i]];
        }
      }
      assert rows[..|rows|] == rows;
      r := Ok((root, items));
    }
  }

  function InThreadOf(root: Id): Row -> bool {
    (r: Row) => r.id == root || r.inReplyTo == Some(root)
  }

  // ----- Reply links in reachable tables -----

  // Ids are unique, and a row never replies to itself or to a later row.
  ghost predicate WellFormed(t: Table) {
    && (forall i, j :: 0 <= i < j < |t| ==> t[i].id != t[j].id)
    && (forall i, j :: 0 <= i <= j < |t| ==> t[i].inReplyTo != Some(t[j].id))
  }

  lemma IndexIsUnique(t: Table, i: nat)
    requires WellFormed(t) && i < |t|
    ensures Has(t, t[i].id) && IndexOf(t, t[i].id) == i
  {}

  lemma ParentPrecedes(t: Table, i: nat)
    requires WellFormed(t) && i < |t| && t[i].inReplyTo.Some? && Has(t, t[i].inReplyTo.value)
    ensures IndexOf(t, t[i].inReplyTo.value) < i
  {
    var j := IndexOf(t, t[i].inReplyTo.value);
    assert t[i].inReplyTo == Some(t[j].id);
  }

  // The topmost row an event transitively replies to.
  ghost function Root(t: Table, i: nat): (r: nat)
    requires WellFormed(t) && i < |t|
    ensures r <= i
    ensures t[r].inReplyTo.None? || !Has(t, t[r].inReplyTo.value)
    ensures Root(t, i) == Root(t, r)
    decreases i
  {
    if t[i].inReplyTo.None? || !Has(t, t[i].inReplyTo.value) then i
    else
      ParentPrecedes(t, i);
      Root(t, IndexOf(t, t[i].inReplyTo.value))
  }

  // Uuids are new: neither an id nor a reply target so far, nor the event's own target.
  predicate UsesNewId(t: Table, op: Op) {
    op.Reconcile? ||
    ((forall i :: 0 <= i < |t| ==> t[i].id != op.id && t[i].inReplyTo != Some(op.id))
     && (op.RecordAsk? ==> op.inReplyTo != Some(op.id))
     && (op.RecordAnswer? ==> op.ask != op.id))
  }

  // Position by position, what later operations may do to a row.
  ghost predicate Evolves(a: Row, b: Row) {
    && CanReach(a.status, b.status)
    && b == a.(status := b.status, body := b.body)
    && (b.body != a.body ==>
          !Terminal(a.status) && b.status == Status.Revised && a.kind == SimulatedAnswer
          && b.body == a.body.(revision := b.body.revision))
  }

  ghost predicate TableEvolves(t: Table, u: Table) {
    |t| <= |u| && forall i :: 0 <= i < |t| ==> Evolves(t[i], u[i])
  }

  /** Asking: the question goes from one member to another, delivered at once or waiting
      for a recipient who is away. */
  lemma AskIsRecorded(
    t: Table, id: Id, from_: PeerId, to: PeerId, question: Text, inReplyTo: Option<Id>, online: bool, now: Time)
    ensures var u := Apply(t, RecordAsk(id, from_, to, question, inReplyTo, online, now));
      && |u| == |t| + 1 && u[..|t|] == t
      && var ask := u[|t|];
      && ask.id == id && ask.kind == Ask && ask.fromMember == from_ && ask.toPeer == to && ask.inReplyTo == inReplyTo
      && ask.body == Body(question, None) && ask.time == now && ask.realtime == online && ask.degraded == !online
      && ask.basedOn == 0 && !ask.snapshotStale
      && (ask.status == Delivered <==> online) && (ask.status == PendingDelivery <==> !online)
  {}

  /** Answering: the answer goes back from the one who was asked to the one who asked. A
      real one is confirmed and settles the question unless it is settled already; a
      simulated one waits to be settled itself, and only marks a waiting question as
      delivered. Nothing else changes. */
  lemma AnswerGoesBack(
    t: Table, id: Id, ask: Id, answer: Text, realtime: bool, basedOn: Text, stale: bool, now: Time)
    requires Has(t, ask)
    ensures var u := Apply(t, RecordAnswer(id, ask, answer, realtime, basedOn, stale, now));
      var i := IndexOf(t, ask);
      && |u| == |t| + 1 && (forall j :: 0 <= j < |t| && j != i ==> u[j] == t[j])
      && var q, a := u[i], u[|t|];
      && q == t[i].(status := q.status)
      && (realtime ==> Terminal(q.status))
      && (realtime ==> q.status == if Terminal(t[i].status) then t[i].status else Status.Confirmed)
      && (!realtime ==> q.status == if t[i].status == PendingDelivery then Delivered else t[i].status)
      && a.id == id && a.inReplyTo == Some(ask) && a.fromMember == t[i].toPeer && a.toPeer == t[i].fromMember
      && a.body == Body(answer, None) && a.time == now && a.basedOn == basedOn && a.snapshotStale == stale
      && (a.kind == RealtimeAnswer <==> realtime) && (a.kind == SimulatedAnswer <==> !realtime)
      && a.realtime == realtime && a.degraded == !realtime
      && (a.status == Status.Confirmed <==> realtime) && (a.status == PendingDelivery <==> !realtime)
  {}

  /** Settling: exactly an open simulated answer can be settled, by one of the three
      final verdicts, which it then bears; a text comes with it only if it is revised. */
  lemma SettlingIff(t: Table, event: Id, verdict: Status, revised: Option<Text>)
    ensures var u := Apply(t, Reconcile(event, verdict, revised));
      if Has(t, event) && t[IndexOf(t, event)].kind == SimulatedAnswer && !Terminal(t[IndexOf(t, event)].status)
        && verdict in {Status.Confirmed, Status.Revised, NeedsHumanReview}
      then
        var i := IndexOf(t, event);
        && |u| == |t| && (forall j :: 0 <= j < |t| && j != i ==> u[j] == t[j])
        && u[i] == t[i].(status := verdict, body := u[i].body) && u[i].body.text == t[i].body.text
        && u[i].body.revision == if verdict == Status.Revised && revised.Some? then revised else t[i].body.revision
      else u == t
  {}

  lemma EvolvesTransitively(a: Row, b: Row, c: Row)
    requires Evolves(a, b) && Evolves(b, c)
    ensures Evolves(a, c)
  {}

  lemma ApplyLaws(t: Table, op: Op)
    requires WellFormed(t) && UsesNewId(t, op)
    ensures WellFormed(Apply(t, op)) && TableEvolves(t, Apply(t, op))
  {
    var u := Apply(t, op);
    assert forall i :: 0 <= i < |t| ==> u[i].id == t[i].id && u[i].inReplyTo == t[i].inReplyTo;
    forall i, j | 0 <= i <= j < |u| ensures u[i].inReplyTo != Some(u[j].id) {
      if i < |t| && j < |t| {
        assert t[i].inReplyTo != Some(t[j].id);
      }
    }
  }

  /** Reply links are acyclic in every table an operation can produce, so the root
      of a reply tree exists; it is fixed when the event is recorded. */
  lemma {:induction false} RootNeverMoves(t: Table, u: Table, i: nat)
    requires WellFormed(t) && WellFormed(u) && TableEvolves(t, u) && i < |t|
    requires forall k, l :: 0 <= k < |t| && |t| <= l < |u| ==> t[k].inReplyTo != Some(u[l].id)
    ensures Root(u, i) == Root(t, i)
    decreases i
  {
    if t[i].inReplyTo.Some? {
      var p := t[i].inReplyTo.value;
      assert u[i].inReplyTo == Some(p);
      if Has(t, p) {
        var j := IndexOf(t, p);
        assert u[j].id == p;
        IndexIsUnique(u, j);
        ParentPrecedes(t, i);
        RootNeverMoves(t, u, j);
      } else {
        forall l | 0 <= l < |u| ensures u[l].id != p {
          if l < |t| {
            assert t[l].id != p;
          }
        }
      }
    }
  }

  // The row n replies further up, if the links go that far.
  ghost function Climb(t: Table, i: nat, n: nat): (r: Option<nat>)
    requires i < |t|
    ensures r.Some? ==> r.value < |t|
    decreases n
  {
    if n == 0 then Some(i)
    else if t[i].inReplyTo.None? || !Has(t, t[i].inReplyTo.value) then None
    else Climb(t, IndexOf(t, t[i].inReplyTo.value), n - 1)
  }

  lemma {:induction false} ClimbKeepsRoot(t: Table, i: nat, n: nat)
    requires WellFormed(t) && i < |t| && Climb(t, i, n).Some?
    ensures Root(t, Climb(t, i, n).value) == Root(t, i)
    decreases n
  {
    if n == 0 {
    } else {
      ClimbKeepsRoot(t, IndexOf(t, t[i].inReplyTo.value), n - 1);
    }
  }

  lemma {:induction false} RootIsClimbed(t: Table, i: nat) returns (n: nat)
    requires WellFormed(t) && i < |t|
    ensures Climb(t, i, n) == Some(Root(t, i))
    decreases i
  {
    if t[i].inReplyTo.None? || !Has(t, t[i].inReplyTo.value) {
      n := 0;
    } else {
      ParentPrecedes(t, i);
      n := RootIsClimbed(t, IndexOf(t, t[i].inReplyTo.value));
      n := n + 1;
    }
  }

  ghost predicate SharedAncestor(t: Table, i: nat, j: nat)
    requires i < |t| && j < |t|
  {
    exists m: nat, n: nat :: Climb(t, i, m).Some? && Climb(t, i, m) == Climb(t, j, n)
  }

  /** Two events have the same thread root exactly when their reply chains meet. */
  lemma SameRootIffChainsMeet(t: Table, i: nat, j: nat)
    requires WellFormed(t) && i < |t| && j < |t|
    ensures Root(t, i) == Root(t, j) <==> SharedAncestor(t, i, j)
  {
    if Root(t, i) == Root(t, j) {
      var m := RootIsClimbed(t, i);
      var n := RootIsClimbed(t, j);
      assert Climb(t, i, m) == Climb(t, j, n);
    }
    if SharedAncestor(t, i, j) {
      var m: nat, n: nat :| Climb(t, i, m).Some? && Climb(t, i, m) == Climb(t, j, n);
      ClimbKeepsRoot(t, i, m);
      ClimbKeepsRoot(t, j, n);
    }
  }

  ghost predicate IsRun(t: Table, ops: seq<Op>, last: Table)
    decreases |ops|
  {
    if ops == [] then last == t
    else UsesNewId(t, ops[0]) && IsRun(Apply(t, ops[0]), ops[1..], last)
  }

  // Reply targets without an event stay without one.
  ghost predicate NoLateTargets(t: Table, u: Table) {
    forall k, l :: 0 <= k < |t| && |t| <= l < |u| ==> t[k].inReplyTo != Some(u[l].id)
  }

  /** In every run the links stay acyclic; a row changes only by moving its status
      along the table and by the payload of a revised simulated answer, at most
      once; and every event keeps its thread root. */
  lemma {:induction false} RunLaws(t: Table, ops: seq<Op>, last: Table)
    requires WellFormed(t) && IsRun(t, ops, last)
    ensures WellFormed(last) && TableEvolves(t, last) && NoLateTargets(t, last)
    ensures forall i :: 0 <= i < |t| ==> last[Root(last, i)].id == t[Root(t, i)].id
    decreases |ops|
  {
    if ops == [] {
    } else {
      var u := Apply(t, ops[0]);
      ApplyLaws(t, ops[0]);
      RunLaws(u, ops[1..], last);
      forall i | 0 <= i < |t| ensures Evolves(t[i], last[i]) {
        EvolvesTransitively(t[i], u[i], last[i]);
      }
      forall k, l | 0 <= k < |t| && |t| <= l < |last| ensures t[k].inReplyTo != Some(last[l].id) {
        assert u[k].inReplyTo == t[k].inReplyTo;
        if l < |u| {
          assert Evolves(u[l], last[l]);
        }
      }
    }
    forall i | 0 <= i < |t| ensures last[Root(last, i)].id == t[Root(t, i)].id {
      RootNeverMoves(t, last, i);
      assert Evolves(t[Root(t, i)], last[Root(t, i)]);
    }
  }

  /** The items returned for a root are exactly the root row and the rows that
      reply to it directly; deeper replies are not among them. */
  lemma ThreadItems(t: Table, root: Id)
    ensures forall r :: r in Filter(InThreadOf(root), t) <==> r in t && (r.id == root || r.inReplyTo == Some(root))
  {
    FilterMembers(InThreadOf(root), t);
  }

  // An event at least two replies below has one exactly two below on its way up.
  lemma {:induction false} TwoBelow(t: Table, i: nat, n: nat, root: nat) returns (j: nat)
    requires WellFormed(t) && i < |t| && root < |t| && n >= 2 && Climb(t, i, n) == Some(root)
    ensures j < |t| && Climb(t, j, 2) == Some(root)
    decreases n
  {
    if n == 2 {
      j := i;
    } else {
      j := TwoBelow(t, IndexOf(t, t[i].inReplyTo.value), n - 1, root);
    }
  }

  // What the query finds are the events at most one reply below the root.
  lemma ShortClimb(t: Table, i: nat, root: nat)
    requires WellFormed(t) && i < |t| && root < |t|
    ensures InThreadOf(t[root].id)(t[i]) <==> Climb(t, i, 0) == Some(root) || Climb(t, i, 1) == Some(root)
  {
    IndexIsUnique(t, root);
    if t[i].id == t[root].id {
      IndexIsUnique(t, i);
    }
  }

  lemma NotBoth(t: Table, i: nat, root: nat)
    requires WellFormed(t) && i < |t| && root < |t| && Climb(t, i, 2) == Some(root)
    ensures Climb(t, i, 0) != Some(root) && Climb(t, i, 1) != Some(root)
  {
    var up := IndexOf(t, t[i].inReplyTo.value);
    ParentPrecedes(t, i);
    ParentPrecedes(t, up);
  }

  // An event of the tree that the query for its root does not return.
  ghost predicate Missed(t: Table, root: nat, i: nat)
    requires WellFormed(t) && root < |t| && i < |t|
  {
    Root(t, i) == root && t[i] !in Filter(InThreadOf(t[root].id), t)
  }

  lemma MissedIsDeep(t: Table, root: nat, i: nat) returns (j: nat)
    requires WellFormed(t) && root < |t| && i < |t| && Missed(t, root, i)
    ensures j < |t| && Climb(t, j, 2) == Some(root)
  {
    var n := RootIsClimbed(t, i);
    ThreadItems(t, t[root].id);
    ShortClimb(t, i, root);
    j := TwoBelow(t, i, n, root);
  }

  lemma DeepIsMissed(t: Table, root: nat, i: nat)
    requires WellFormed(t) && root < |t| && i < |t| && Root(t, root) == root && Climb(t, i, 2) == Some(root)
    ensures Missed(t, root, i)
  {
    ClimbKeepsRoot(t, i, 2);
    ThreadItems(t, t[root].id);
    ShortClimb(t, i, root);
    NotBoth(t, i, root);
  }

  /** A thread query misses part of the reply tree exactly when some event sits two
      replies below the root. */
  lemma ThreadIsWholeTreeIff(t: Table, root: nat)
    requires WellFormed(t) && root < |t| && Root(t, root) == root
    ensures (exists i :: 0 <= i < |t| && Missed(t, root, i)) <==>
      (exists i :: 0 <= i < |t| && Climb(t, i, 2) == Some(root))
  {
    hide Missed, Climb, WellFormed, Root;
    if exists i :: 0 <= i < |t| && Missed(t, root, i) {
      var i :| 0 <= i < |t| && Missed(t, root, i);
      var _ := MissedIsDeep(t, root, i);
    }
    if exists i :: 0 <= i < |t| && Climb(t, i, 2) == Some(root) {
      var i :| 0 <= i < |t| && Climb(t, i, 2) == Some(root);
      DeepIsMissed(t, root, i);
    }
  }

  // A question, its answer, and a question back about the answer: the last is missed.
  lemma DeepReplyIsMissed()
    ensures exists t: Table, i: nat ::
      IsRun([], [RecordAsk(0, 7, 8, 1, None, true, 0), RecordAnswer(1, 0, 2, true, 0, false, 1),
                 RecordAsk(2, 7, 8, 3, Some(1), true, 2)], t)
      && WellFormed(t) && i < |t| && Missed(t, 0, i)
  {
    var first, second := RecordAsk(0, 7, 8, 1, None, true, 0), RecordAnswer(1, 0, 2, true, 0, false, 1);
    var third := RecordAsk(2, 7, 8, 3, Some(1), true, 2);
    var t1 := Apply([], first);
    var t2 := Apply(t1, second);
    var t3 := Apply(t2, third);
    hide Apply, Missed;
    Recorded([], first);
    Recorded(t1, second);
    Recorded(t2, third);
    var ops := [first, second, third];
    assert ops[1..] == [second, third] && [second, third][1..] == [third] && [third][1..] == [];
    assert IsRun(t3, [], t3) && IsRun(t2, [third], t3) && IsRun(t1, [second, third], t3);
    ReplyToReply(t3);
  }

  // Recording appends one row with its id and reply link, and leaves those of the others.
  lemma Recorded(t: Table, op: Op)
    requires WellFormed(t) && UsesNewId(t, op) && !op.Reconcile? && (op.RecordAnswer? ==> Has(t, op.ask))
    ensures var u := Apply(t, op);
      && WellFormed(u) && |u| == |t| + 1 && u[|t|].id == op.id
      && u[|t|].inReplyTo == (if op.RecordAsk? then op.inReplyTo else Some(op.ask))
      && forall i :: 0 <= i < |t| ==> u[i].id == t[i].id && u[i].inReplyTo == t[i].inReplyTo
  {
    ApplyLaws(t, op);
  }

  lemma ReplyToReply(t: Table)
    requires WellFormed(t) && |t| == 3 && t[0].inReplyTo == None
    requires t[1].inReplyTo == Some(t[0].id) && t[2].inReplyTo == Some(t[1].id)
    ensures Missed(t, 0, 2)
  {
    IndexIsUnique(t, 0);
    IndexIsUnique(t, 1);
    assert Climb(t, 1, 1) == Climb(t, 0, 0) == Some(0);
    RootOfFirst(t);
    DeepIsMissed(t, 0, 2);
  }

  lemma RootOfFirst(t: Table)
    requires WellFormed(t) && |t| > 0
    ensures Root(t, 0) == 0
  {}

  /** A new event joins the thread of the event it replies to, if there is one, and
      otherwise opens its own. */
  lemma NewEventJoinsThread(t: Table, op: Op)
    requires WellFormed(t) && UsesNewId(t, op) && !op.Reconcile?
    requires op.RecordAnswer? ==> Has(t, op.ask)
    ensures var u := Apply(t, op);
      var target := if op.RecordAsk? then op.inReplyTo else Some(op.ask);
      && |u| == |t| + 1 && u[|t|].id == op.id && WellFormed(u)
      && Root(u, |t|) == if target.Some? && Has(t, target.value) then Root(t, IndexOf(t, target.value)) else |t|
  {
    var u := Apply(t, op);
    var target := if op.RecordAsk? then op.inReplyTo else Some(op.ask);
    ApplyLaws(t, op);
    assert forall i :: 0 <= i < |t| ==> u[i].id == t[i].id;
    if target.Some? && Has(t, target.value) {
      var j := IndexOf(t, target.value);
      assert u[j].id == target.value;
      IndexIsUnique(u, j);
      RootNeverMoves(t, u, j);
    } else if target.Some? {
      forall l | 0 <= l < |u| ensures u[l].id != target.value {
        if l < |t| {
          assert t[l].id != target.value;
        }
      }
    }
  }
}
