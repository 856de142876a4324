/** Peers exchanging messages over an unreliable transport: every run duplicates
    nothing, invents nothing, and loses exactly the asks that the transport refuses in
    real time (server/async_comm/sync_protocol.py, server/async_comm/mailbox.py,
    server/async_comm/peer_comm.py). */
module PeerNetwork {
  import opened Collections
  import opened CommTypes
  import opened DeliveryStatus
  import opened Mailboxes
  import opened ConversationLogs
  import opened SyncProtocols

  datatype Node = Node(box: Box, log: seq<Event>)

  // History: who sent which event, as it stands on the wire, under which message id:
  // the event's own through the outbox, another one when delivered in real time. A
  // real-time delivery may be refused, and then nobody tries again.
  datatype Sent = Sent(by_: PeerId, event: Event, messageId: Id, refused: bool)

  // `wire` holds every message the transport ever accepted; fetching may return
  // any of them any number of times. Ids from `next` on are unused.
  datatype World = World(nodes: map<PeerId, Node>, wire: set<Message>, sent: set<Sent>, next: Id)

  datatype Action =
    | Compose(p: PeerId, e: Event, logged: bool)
    | Note(p: PeerId, e: Event)
    | Deliver(p: PeerId, e: Event, at: Time, messageId: Id, accepted: bool)
    | DoPush(p: PeerId, q: PeerId, reply: SyncResult, taken: set<Id>)
    | DoPull(p: PeerId, q: PeerId, msgs: seq<Message>)
    | DoReconcile(p: PeerId, q: PeerId, resolve: Resolver, base: Id, now: Time)
    | DoRemove(p: PeerId, ids: set<Id>)

  // Outbox events are asks, shared assets and the like, never simulated answers,
  // and do not pose as one on the wire.
  predicate Mailable(e: Event) {
    e.kind != SimulatedAnswer && WireKind(e.kind, e.payload) != SimulatedAnswer
  }

  // An ask as its real-time message shows it: stamped on delivery, the clock in the
  // payload.
  function Live(e: Event, at: Time): Event {
    e.(time := at, payload := e.payload.(clock := Some(e.clock)))
  }

  ghost function Carried(n: Node, p: PeerId, q: PeerId, taken: set<Id>): set<Message> {
    set e | e in PendingFor(n.box, q) && e.id in taken :: BuildMessage(e, p, q)
  }

  // What the environment may do: new events carry an unused id; an
  // acknowledged message was accepted, though an accepted one need not be
  // acknowledged, and a delivery may raise with or without having been accepted;
  // fetched messages were accepted, whoever sent them; and nobody removes a message
  // that is still waiting. That fetched messages are addressed to the fetching peer
  // matters only for who an inbox event was meant for.
  ghost predicate Enabled(w: World, a: Action) {
    a.p in w.nodes &&
    var n := w.nodes[a.p];
    match a
    case Compose(p, e, _) => e.id >= w.next && Mailable(e)
    case Note(p, e) => e.id >= w.next
    case Deliver(p, e, _, _, _) => e.id >= w.next && Mailable(e)
    case DoPush(p, q, reply, taken) =>
      && (forall e :: e in PendingFor(n.box, q) && e.id in reply.deliveredIds ==> e.id in taken)
      && (reply.deliveredIds == {} && reply.success ==> forall e :: e in PendingFor(n.box, q) ==> e.id in taken)
    case DoPull(p, q, msgs) =>
      forall m :: m in msgs ==> m in w.wire && m.recipient == p
    case DoReconcile(_, _, _, base, _) => base >= w.next
    case DoRemove(p, ids) => forall e :: e in Pending(n.box) ==> e.id !in ids
  }

  ghost function Next(w: World, a: Action): World
    requires Enabled(w, a)
  {
    var n := w.nodes[a.p];
    match a
    case Compose(p, e, logged) =>
      w.(nodes := w.nodes[p := Node(AppendOutbox(n.box, e), if logged then Append(n.log, e) else n.log)],
         sent := w.sent + {Sent(p, e, e.id, false)}, next := e.id + 1)
    case Note(p, e) =>
      w.(nodes := w.nodes[p := n.(log := Append(n.log, e))], next := e.id + 1)
    case Deliver(p, e, at, messageId, accepted) =>
      var s := Sent(p, Live(e, at), messageId, !accepted);
      w.(nodes := w.nodes[p := n.(log := Append(n.log, e))], sent := w.sent + {s},
         wire := if accepted then w.wire + {MessageOf(s)} else w.wire, next := e.id + 1)
    case DoPush(p, q, reply, taken) =>
      w.(nodes := w.nodes[p := n.(box := Push(n.box, q, reply))], wire := w.wire + Carried(n, p, q, taken))
    case DoPull(p, q, msgs) =>
      var es := Arrivals(msgs, w.next);
      w.(nodes := w.nodes[p := Node(PullBox(n.box, es), PullLog(n.log, es))])
    case DoReconcile(p, q, resolve, base, now) =>
      var added := Reconciled(n.log, q, resolve, base, now);
      w.(nodes := w.nodes[p := Node(Settled(n.box, added), n.log + added)], next := base + |added|)
    case DoRemove(p, ids) =>
      w.(nodes := w.nodes[p := n.(box := RemoveDelivered(n.box, ids))])
  }

  // ----- Invariant -----

  ghost predicate FromWire(wire: set<Message>, p: PeerId, e: Event) {
    exists m :: m in wire && m.recipient == p && e == EventFromMessage(m, 0)
  }

  ghost predicate IsSentId(sent: set<Sent>, id: Id) {
    exists s :: s in sent && s.event.id == id
  }

  // Sent, and not refused.
  ghost predicate IsCarriedId(sent: set<Sent>, id: Id) {
    exists s :: s in sent && s.event.id == id && !s.refused
  }

  ghost predicate SentBy(sent: set<Sent>, p: PeerId, e: Event) {
    exists s :: s in sent && s.by_ == p && s.event.id == e.id && s.event.kind == e.kind
  }

  // A log entry is the image of an accepted message, one's own outgoing event, or
  // something that was never sent anywhere.
  ghost predicate LogOrigin(p: PeerId, e: Event, sent: set<Sent>, wire: set<Message>) {
    FromWire(wire, p, e) || SentBy(sent, p, e) || !IsSentId(sent, e.id)
  }

  ghost predicate NodeOk(p: PeerId, n: Node, sent: set<Sent>, wire: set<Message>, next: Id) {
    && n.box.Valid() && UniqueIds(n.log) && AllBelow(n.log, next)
    && (forall id :: id in n.box.state ==> IsCarriedId(sent, id))
    && (forall e :: e in n.box.outbox ==> Sent(p, e, e.id, false) in sent)
    && (forall e :: e in n.box.inbox ==> FromWire(wire, p, e))
    && (forall e :: e in n.log ==> LogOrigin(p, e, sent, wire))
  }

  ghost predicate SentOk(sent: set<Sent>, next: Id) {
    && (forall s :: s in sent ==> s.event.id < next && Mailable(s.event))
    && (forall s, t :: s in sent && t in sent && s.event.id == t.event.id ==> s == t)
  }

  ghost predicate WireOk(wire: set<Message>, sent: set<Sent>) {
    forall m :: m in wire ==> IsSentMessage(m, sent)
  }

  ghost predicate IsSentMessage(m: Message, sent: set<Sent>) {
    exists s :: s in sent && !s.refused && m == MessageOf(s)
  }

  ghost function MessageOf(s: Sent): Message {
    BuildMessage(s.event, s.by_, s.event.peer).(messageId := s.messageId)
  }

  ghost predicate Waiting(b: Box, e: Event) {
    e in b.outbox && e.id in b.state && b.state[e.id] == PendingDelivery
  }

  // Still on its way: at the sender or with the transport.
  ghost predicate UnderWay(w: World, s: Sent) {
    s.by_ in w.nodes && (Waiting(w.nodes[s.by_].box, s.event) || MessageOf(s) in w.wire)
  }

  ghost predicate NothingLost(w: World) {
    forall s :: s in w.sent ==> s.by_ in w.nodes && (s.refused || UnderWay(w, s))
  }

  ghost predicate Inv(w: World) {
    && (forall p :: p in w.nodes ==> NodeOk(p, w.nodes[p], w.sent, w.wire, w.next))
    && SentOk(w.sent, w.next) && WireOk(w.wire, w.sent)
    && NothingLost(w)
  }

  // ----- Preservation -----

  lemma NodeOkGrows(
    p: PeerId, n: Node, sent: set<Sent>, sent': set<Sent>, wire: set<Message>, wire': set<Message>,
    next: Id, next': Id)
    requires NodeOk(p, n, sent, wire, next)
    requires sent <= sent' && wire <= wire' && next <= next'
    requires forall s :: s in sent' && s !in sent ==> s.event.id >= next
    ensures NodeOk(p, n, sent', wire', next')
  {
    forall id | id in n.box.state ensures IsCarriedId(sent', id) {
      assert IsCarriedId(sent, id);
    }
    forall e | e in n.box.inbox ensures FromWire(wire', p, e) {
      assert FromWire(wire, p, e);
    }
    forall e | e in n.log ensures LogOrigin(p, e, sent', wire') {
      assert LogOrigin(p, e, sent, wire);
      var i :| 0 <= i < |n.log| && n.log[i] == e;
      assert e.id < next;
    }
  }

  lemma OthersGrow(w: World, w': World, p: PeerId)
    requires Inv(w) && w.nodes.Keys == w'.nodes.Keys
    requires forall q :: q in w.nodes && q != p ==> w'.nodes[q] == w.nodes[q]
    requires w.sent <= w'.sent && w.wire <= w'.wire && w.next <= w'.next
    requires forall s :: s in w'.sent && s !in w.sent ==> s.event.id >= w.next
    ensures forall q :: q in w'.nodes && q != p ==> NodeOk(q, w'.nodes[q], w'.sent, w'.wire, w'.next)
  {
    forall q | q in w'.nodes && q != p ensures NodeOk(q, w'.nodes[q], w'.sent, w'.wire, w'.next) {
      NodeOkGrows(q, w.nodes[q], w.sent, w'.sent, w.wire, w'.wire, w.next, w'.next);
    }
  }

  // A node may log an event of known origin.
  lemma LoggingIsOk(p: PeerId, n: Node, e: Event, sent: set<Sent>, wire: set<Message>, next: Id)
    requires NodeOk(p, n, sent, wire, next) && e.id < next && LogOrigin(p, e, sent, wire)
    ensures NodeOk(p, n.(log := Append(n.log, e)), sent, wire, next)
  {
    AppendLaws(n.log, e);
  }

  lemma OwnOrigin(p: PeerId, e: Event, sent: set<Sent>, wire: set<Message>)
    requires Sent(p, e, e.id, false) in sent
    ensures LogOrigin(p, e, sent, wire)
  {
    assert SentBy(sent, p, e);
  }

  lemma ComposedNodeIsOk(w: World, p: PeerId, e: Event, logged: bool, sent: set<Sent>)
    requires Inv(w) && Enabled(w, Compose(p, e, logged)) && sent == w.sent + {Sent(p, e, e.id, false)}
    ensures NodeOk(p, Next(w, Compose(p, e, logged)).nodes[p], sent, w.wire, e.id + 1)
    ensures Waiting(Next(w, Compose(p, e, logged)).nodes[p].box, e)
    ensures forall f :: Waiting(w.nodes[p].box, f) ==> Waiting(Next(w, Compose(p, e, logged)).nodes[p].box, f)
  {
    hide UniqueIds, AllBelow, HasId, FromWire, Append, WireKind, WireOk, NothingLost, LogOrigin;
    var n, b := w.nodes[p], AppendOutbox(w.nodes[p].box, e);
    NodeOkGrows(p, n, w.sent, sent, w.wire, w.wire, w.next, e.id + 1);
    forall id | id in n.box.state ensures id != e.id {
      assert IsCarriedId(w.sent, id);
    }
    assert Sent(p, e, e.id, false) in sent;
    OwnOrigin(p, e, sent, w.wire);
    assert e in b.outbox;
    ApplyLaws(n.box, Send(e));
    LoggingIsOk(p, n.(box := b), e, sent, w.wire, e.id + 1);
  }

  lemma ComposeKeeps(w: World, a: Action)
    requires Inv(w) && a.Compose? && Enabled(w, a)
    ensures Inv(Next(w, a))
  {
    hide NodeOk, Waiting, WireKind;
    var w', p, e := Next(w, a), a.p, a.e;
    OthersGrow(w, w', p);
    ComposedNodeIsOk(w, p, e, a.logged, w'.sent);
    forall m | m in w'.wire ensures IsSentMessage(m, w'.sent) {
      assert IsSentMessage(m, w.sent);
    }
    forall s | s in w'.sent
      ensures s.by_ in w'.nodes && (s.refused || UnderWay(w', s))
    {
      if s != Sent(p, e, e.id, false) {
        assert s.by_ in w.nodes && (s.refused || UnderWay(w, s));
      }
    }
  }

  lemma NoteKeeps(w: World, a: Action)
    requires Inv(w) && a.Note? && Enabled(w, a)
    ensures Inv(Next(w, a))
  {
    var w', p, e := Next(w, a), a.p, a.e;
    OthersGrow(w, w', p);
    NodeOkGrows(p, w.nodes[p], w.sent, w'.sent, w.wire, w'.wire, w.next, w'.next);
    LoggingIsOk(p, w.nodes[p], e, w'.sent, w'.wire, w'.next);
  }

  lemma DeliveredNodeIsOk(w: World, a: Action)
    requires Inv(w) && a.Deliver? && Enabled(w, a)
    ensures var w' := Next(w, a);
      NodeOk(a.p, w'.nodes[a.p], w'.sent, w'.wire, w'.next)
  {
    hide UniqueIds, AllBelow, HasId, FromWire, Append, WireKind;
    var w', p, e := Next(w, a), a.p, a.e;
    NodeOkGrows(p, w.nodes[p], w.sent, w'.sent, w.wire, w'.wire, w.next, w'.next);
    assert Sent(p, Live(e, a.at), a.messageId, !a.accepted) in w'.sent;
    assert SentBy(w'.sent, p, e);
    LoggingIsOk(p, w.nodes[p], e, w'.sent, w'.wire, w'.next);
  }

  lemma DeliverKeeps(w: World, a: Action)
    requires Inv(w) && a.Deliver? && Enabled(w, a)
    ensures Inv(Next(w, a))
  {
    hide NodeOk, Waiting;
    var w', p := Next(w, a), a.p;
    OthersGrow(w, w', p);
    DeliveredNodeIsOk(w, a);
    forall m | m in w'.wire ensures IsSentMessage(m, w'.sent) {
      if m in w.wire {
        assert IsSentMessage(m, w.sent);
      }
    }
    forall s | s in w'.sent
      ensures s.by_ in w'.nodes && (s.refused || UnderWay(w', s))
    {
      if s in w.sent {
        assert s.by_ in w.nodes && (s.refused || UnderWay(w, s));
        SameBoxStillWaits(w, w', s.by_);
      } else {
        assert s == Sent(p, Live(a.e, a.at), a.messageId, !a.accepted) && (s.refused || MessageOf(s) in w'.wire);
      }
    }
  }

  lemma SameBoxStillWaits(w: World, w': World, p: PeerId)
    requires p in w.nodes && p in w'.nodes && w.nodes[p].box == w'.nodes[p].box
    ensures forall e :: Waiting(w.nodes[p].box, e) ==> Waiting(w'.nodes[p].box, e)
  {}

  // A waiting event was sent through the outbox, so its message bears its own id.
  lemma WaitingWasQueued(w: World, s: Sent)
    requires Inv(w) && s in w.sent && s.by_ in w.nodes && Waiting(w.nodes[s.by_].box, s.event)
    ensures MessageOf(s) == BuildMessage(s.event, s.by_, s.event.peer)
  {
    hide UniqueIds, AllBelow, HasId, FromWire, LogOrigin, WireKind;
    assert NodeOk(s.by_, w.nodes[s.by_], w.sent, w.wire, w.next);
    assert Sent(s.by_, s.event, s.event.id, false) in w.sent;
  }

  // What leaves the outbox's waiting events in a push was accepted.
  lemma PushLosesNothing(w: World, a: Action, e: Event)
    requires Inv(w) && a.DoPush? && Enabled(w, a) && Waiting(w.nodes[a.p].box, e)
    ensures Waiting(Next(w, a).nodes[a.p].box, e) || BuildMessage(e, a.p, a.q) in Next(w, a).wire
    ensures !Waiting(Next(w, a).nodes[a.p].box, e) ==> e.peer == a.q
  {
    hide UniqueIds, AllBelow, HasId, FromWire, LogOrigin, IsSentId, IsCarriedId, Filter;
    var n := w.nodes[a.p];
    PendingMembers(n.box, a.q);
    PushLaws(n.box, a.q, a.reply, a.q);
    PushedStatus(n.box, a.q, a.reply, e);
    if !Waiting(Push(n.box, a.q, a.reply), e) {
      assert e in PendingFor(n.box, a.q) && e.id in a.taken;
      assert BuildMessage(e, a.p, a.q) in Carried(n, a.p, a.q, a.taken);
    }
  }

  lemma PushedNodeIsOk(w: World, a: Action)
    requires Inv(w) && a.DoPush? && Enabled(w, a)
    ensures var w' := Next(w, a);
      NodeOk(a.p, w'.nodes[a.p], w'.sent, w'.wire, w'.next) && WireOk(w'.wire, w'.sent)
  {
    hide UniqueIds, AllBelow, HasId, FromWire, LogOrigin, IsSentId, IsCarriedId, Filter;
    var w', p, q := Next(w, a), a.p, a.q;
    var n := w.nodes[p];
    NodeOkGrows(p, n, w.sent, w'.sent, w.wire, w'.wire, w.next, w'.next);
    PushLaws(n.box, q, a.reply, q);
    PendingMembers(n.box, q);
    forall m | m in w'.wire ensures IsSentMessage(m, w'.sent) {
      if m in w.wire {
        assert IsSentMessage(m, w.sent);
      } else {
        var e :| e in PendingFor(n.box, q) && e.id in a.taken && m == BuildMessage(e, p, q);
        assert m == MessageOf(Sent(p, e, e.id, false)) && Sent(p, e, e.id, false) in w.sent;
      }
    }
  }

  lemma PushKeeps(w: World, a: Action)
    requires Inv(w) && a.DoPush? && Enabled(w, a)
    ensures Inv(Next(w, a))
  {
    hide NodeOk, WireOk, Waiting, Push;
    var w', p := Next(w, a), a.p;
    OthersGrow(w, w', p);
    PushedNodeIsOk(w, a);
    forall s | s in w'.sent
      ensures s.by_ in w'.nodes && (s.refused || UnderWay(w', s))
    {
      assert s.by_ in w.nodes && (s.refused || UnderWay(w, s));
      if s.by_ == p && Waiting(w.nodes[p].box, s.event) {
        PushLosesNothing(w, a, s.event);
        WaitingWasQueued(w, s);
      }
    }
  }

  lemma ArrivalsAreFromWire(w: World, p: PeerId, msgs: seq<Message>)
    requires Inv(w)
    requires forall m :: m in msgs ==> m in w.wire && m.recipient == p
    ensures forall e :: e in Arrivals(msgs, w.next) ==>
              FromWire(w.wire, p, e) && IsCarriedId(w.sent, e.id) && e.id < w.next
  {
    hide NodeOk, NothingLost, WireKind;
    var es := Arrivals(msgs, w.next);
    forall e | e in es ensures FromWire(w.wire, p, e) && IsCarriedId(w.sent, e.id) && e.id < w.next {
      var i :| 0 <= i < |es| && es[i] == e;
      assert msgs[i] in msgs && IsSentMessage(msgs[i], w.sent);
      assert e == EventFromMessage(msgs[i], 0);
    }
  }

  lemma PullKeeps(w: World, a: Action)
    requires Inv(w) && a.DoPull? && Enabled(w, a)
    ensures Inv(Next(w, a))
  {
    hide UniqueIds, AllBelow, HasId, FromWire, IsSentId, IsCarriedId, PullBox, PullLog, Arrivals;
    var w', p, es := Next(w, a), a.p, Arrivals(a.msgs, w.next);
    var n, n' := w.nodes[p], Next(w, a).nodes[p];
    OthersGrow(w, w', p);
    ArrivalsAreFromWire(w, p, a.msgs);
    PullBoxLaws(n.box, es);
    PullLogLaws(n.log, es);
    PullLogBelow(n.log, es, w.next);
    forall id | id in n'.box.state ensures IsCarriedId(w.sent, id) {
      if id !in n.box.state {
        assert es[Find(es, id)] in es;
      }
    }
    assert NodeOk(p, n', w.sent, w.wire, w.next);
    forall s | s in w.sent
      ensures s.by_ in w'.nodes && (s.refused || UnderWay(w', s))
    {
      assert s.by_ in w.nodes && (s.refused || UnderWay(w, s));
    }
  }

  /** In a run simulated answers never enter a mailbox, so a pass cannot touch a
      mailbox status: the status update of the reconciler is a no-op here. */
  lemma ReconcileLeavesBox(w: World, p: PeerId, q: PeerId, resolve: Resolver, base: Id, now: Time)
    requires Inv(w) && p in w.nodes
    ensures var n := w.nodes[p]; Settled(n.box, Reconciled(n.log, q, resolve, base, now)) == n.box
  {
    hide UniqueIds, AllBelow, HasId, NothingLost, Settle, Resolutions, Rulings, Simulated;
    var n := w.nodes[p];
    var rule, sims := Rulings(n.log, q, resolve), Simulated(n.log, q);
    var added := Reconciled(n.log, q, resolve, base, now);
    ResolutionsReply(rule, q, sims, base, now);
    SimulatedMembers(n.log, q);
    forall e | e in added ensures e.inReplyTo.Some? && e.inReplyTo.value !in n.box.state {
      var sim :| sim in sims && e.inReplyTo == Some(sim.id);
      SimulatedIsNotCarried(w, p, sim);
    }
    SettleUnknown(n.box.state, added);
  }

  lemma SimulatedIsNotCarried(w: World, p: PeerId, sim: Event)
    requires Inv(w) && p in w.nodes && sim in w.nodes[p].log && sim.kind == SimulatedAnswer
    ensures sim.id !in w.nodes[p].box.state
  {
    hide UniqueIds, AllBelow, HasId, NothingLost;
    assert LogOrigin(p, sim, w.sent, w.wire);
    forall m | m in w.wire ensures EventFromMessage(m, 0).kind != SimulatedAnswer {
      assert IsSentMessage(m, w.sent);
    }
    assert !FromWire(w.wire, p, sim);
    assert !IsSentId(w.sent, sim.id);
    assert !IsCarriedId(w.sent, sim.id);
  }

  lemma SimulatedMembers(log: seq<Event>, q: PeerId)
    ensures forall e :: e in Simulated(log, q) ==> e in log && e.kind == SimulatedAnswer
  {
    FilterMembers(WithPeer(q), log);
    TimeOrder.SortIsSort(Filter(WithPeer(q), log));
    FilterMembers(OfKind(SimulatedAnswer), LoadByPeer(log, q));
  }

  lemma {:induction false} ResolutionsReply(rule: Event -> Ruling, p: PeerId, sims: seq<Event>, base: Id, now: Time)
    ensures forall e :: e in Resolutions(rule, p, sims, base, now) ==>
              exists sim :: sim in sims && e.inReplyTo == Some(sim.id)
  {
    if sims == [] {
    } else {
      var n := |sims| - 1;
      assert sims == sims[..n] + [sims[n]];
      ResolutionsReply(rule, p, sims[..n], base, now);
      ResolutionsStep(rule, p, sims, n, base, now);
      assert sims[..n+1] == sims;
      var r := Resolutions(rule, p, sims[..n], base, now);
      forall e | e in Resolutions(rule, p, sims, base, now)
        ensures exists sim :: sim in sims && e.inReplyTo == Some(sim.id)
      {
        if e in r {
          var sim :| sim in sims[..n] && e.inReplyTo == Some(sim.id);
          assert sim in sims;
        } else {
          assert sims[n] in sims && e.inReplyTo == Some(sims[n].id);
        }
      }
    }
  }

  lemma {:induction false} SettleUnknown(state: StatusMap, es: seq<Event>)
    requires forall e :: e in es ==> e.inReplyTo.Some? && e.inReplyTo.value !in state
    ensures Settle(state, es) == state
  {
    if es == [] {
    } else {
      SettleUnknown(state, es[..|es|-1]);
      assert es[|es|-1] in es;
    }
  }

  lemma BelowStays(es: seq<Event>, next: Id, base: Id)
    requires AllBelow(es, next) && next <= base
    ensures AllBelow(es, base)
  {}

  lemma ReconcileKeeps(w: World, a: Action)
    requires Inv(w) && a.DoReconcile? && Enabled(w, a)
    ensures Inv(Next(w, a))
  {
    hide UniqueIds, AllBelow, HasId, FromWire, Settled, Rulings, Simulated, Resolutions, Waiting;
    var w', p := Next(w, a), a.p;
    var n := w.nodes[p];
    var rule, sims := Rulings(n.log, a.q, a.resolve), Simulated(n.log, a.q);
    var added := Reconciled(n.log, a.q, a.resolve, a.base, a.now);
    OthersGrow(w, w', p);
    NodeOkGrows(p, n, w.sent, w'.sent, w.wire, w'.wire, w.next, w'.next);
    ReconcileLeavesBox(w, p, a.q, a.resolve, a.base, a.now);
    BelowStays(n.log, w.next, a.base);
    ResolutionsAreNew(n.log, rule, a.q, sims, a.base, a.now);
    ResolutionIds(rule, a.q, sims, a.base, a.now);
    forall e | e in n.log + added ensures LogOrigin(p, e, w'.sent, w'.wire) {
      if e in n.log {
        assert LogOrigin(p, e, w.sent, w.wire);
      } else {
        var i :| 0 <= i < |added| && added[i] == e;
        assert e.id == a.base + i;
        assert !IsSentId(w.sent, e.id);
      }
    }
  }

  lemma RemoveKeeps(w: World, a: Action)
    requires Inv(w) && a.DoRemove? && Enabled(w, a)
    ensures Inv(Next(w, a))
  {
    hide UniqueIds, AllBelow, HasId, FromWire, LogOrigin, IsSentId, IsCarriedId, Filter;
    var w', p := Next(w, a), a.p;
    var n, b' := w.nodes[p], RemoveDelivered(w.nodes[p].box, a.ids);
    OthersGrow(w, w', p);
    ApplyLaws(n.box, Op.Remove(a.ids));
    FilterMembers(NotIn(a.ids), n.box.outbox);
    PendingMembers(n.box, p);
    assert NodeOk(p, n.(box := b'), w.sent, w.wire, w.next);
    forall s | s in w.sent
      ensures s.by_ in w'.nodes && (s.refused || UnderWay(w', s))
    {
      assert s.by_ in w.nodes && (s.refused || UnderWay(w, s));
      if s.by_ == p && Waiting(n.box, s.event) {
        assert s.event in Pending(n.box);
      }
    }
  }

  lemma NextKeeps(w: World, a: Action)
    requires Inv(w) && Enabled(w, a)
    ensures Inv(Next(w, a))
  {
    match a
    case Compose(_, _, _) => ComposeKeeps(w, a);
    case Note(_, _) => NoteKeeps(w, a);
    case Deliver(_, _, _, _, _) => DeliverKeeps(w, a);
    case DoPush(_, _, _, _) => PushKeeps(w, a);
    case DoPull(_, _, _) => PullKeeps(w, a);
    case DoReconcile(_, _, _, _, _) => ReconcileKeeps(w, a);
    case DoRemove(_, _) => RemoveKeeps(w, a);
  }

  // ----- Runs -----

  ghost predicate IsRun(w: World, run: seq<Action>, last: World)
    decreases |run|
  {
    if run == [] then last == w
    else Enabled(w, run[0]) && IsRun(Next(w, run[0]), run[1..], last)
  }

  ghost predicate Initial(w: World) {
    && w.wire == {} && w.sent == {}
    && forall p :: p in w.nodes ==> w.nodes[p] == Node(Box([], [], map[]), [])
  }

  lemma {:induction false} RunKeeps(w: World, run: seq<Action>, last: World)
    requires Inv(w) && IsRun(w, run, last)
    ensures Inv(last)
    decreases |run|
  {
    if run == [] {
    } else {
      NextKeeps(w, run[0]);
      RunKeeps(Next(w, run[0]), run[1..], last);
    }
  }

  // What is refused in real time reaches nobody; what is not is waiting or on the wire.
  lemma UnderWayIff(w: World, s: Sent)
    requires Inv(w) && s in w.sent
    ensures s.by_ in w.nodes && (UnderWay(w, s) <==> !s.refused)
    ensures s.refused ==> ReachesNobody(w, s.event.id)
  {
    hide UniqueIds, AllBelow, HasId, FromWire, LogOrigin, WireKind;
    if s.refused {
      forall t | t in w.sent && t.event.id == s.event.id ensures t.refused {
        assert t == s;
      }
      assert !IsCarriedId(w.sent, s.event.id);
      forall m | m in w.wire ensures m.eventId != Some(s.event.id) {
        assert IsSentMessage(m, w.sent);
      }
      assert s.event.id !in w.nodes[s.by_].box.state;
    }
  }

  ghost predicate ReachesNobody(w: World, id: Id) {
    && (forall p :: p in w.nodes ==> id !in w.nodes[p].box.state)
    && (forall m :: m in w.wire ==> m.eventId != Some(id))
  }

  // Logs only grow, so a refused ask stays in its sender's log.
  ghost predicate RefusedLogged(w: World) {
    forall s :: s in w.sent && s.refused ==> s.by_ in w.nodes && HasId(w.nodes[s.by_].log, s.event.id)
  }

  lemma LogsGrow(w: World, a: Action)
    requires Inv(w) && Enabled(w, a)
    ensures forall p :: p in w.nodes ==> p in Next(w, a).nodes && w.nodes[p].log <= Next(w, a).nodes[p].log
  {
    hide Push, RemoveDelivered, AppendOutbox, PullBox, Settled;
    var n := w.nodes[a.p];
    match a
    case Compose(p, e, _) => AppendLaws(n.log, e);
    case Note(p, e) => AppendLaws(n.log, e);
    case Deliver(p, e, _, _, _) => AppendLaws(n.log, e);
    case DoPull(p, q, msgs) => PullLogLaws(n.log, Arrivals(msgs, w.next));
    case _ =>
  }

  lemma RefusedStaysLogged(w: World, a: Action)
    requires Inv(w) && RefusedLogged(w) && Enabled(w, a)
    ensures RefusedLogged(Next(w, a))
  {
    LogsGrow(w, a);
    var w' := Next(w, a);
    forall s | s in w'.sent && s.refused ensures s.by_ in w'.nodes && HasId(w'.nodes[s.by_].log, s.event.id) {
      if s in w.sent {
        var i :| 0 <= i < |w.nodes[s.by_].log| && w.nodes[s.by_].log[i].id == s.event.id;
        assert w'.nodes[s.by_].log[i] == w.nodes[s.by_].log[i];
      } else {
        AppendLaws(w.nodes[a.p].log, a.e);
      }
    }
  }

  lemma {:induction false} RunKeepsRefusedLogged(w: World, run: seq<Action>, last: World)
    requires Inv(w) && RefusedLogged(w) && IsRun(w, run, last)
    ensures RefusedLogged(last)
    decreases |run|
  {
    if run == [] {
    } else {
      NextKeeps(w, run[0]);
      RefusedStaysLogged(w, run[0]);
      RunKeepsRefusedLogged(Next(w, run[0]), run[1..], last);
    }
  }

  /** Every run of any number of peers: a sent event, real-time asks included, is still
      waiting at its sender or was accepted by the transport if and only if it was not
      refused in real time; a refused ask reaches nobody, though its sender goes on
      logging it; an inbox or log holds each id at most once; and whatever sits in an
      inbox is the image of an event its sender really addressed to this peer. */
  lemma EveryRun(w: World, run: seq<Action>, last: World)
    requires Initial(w) && IsRun(w, run, last)
    ensures Inv(last)
    ensures forall s :: s in last.sent ==> s.by_ in last.nodes && (UnderWay(last, s) <==> !s.refused)
    ensures forall s :: s in last.sent && s.refused ==>
      ReachesNobody(last, s.event.id) && HasId(last.nodes[s.by_].log, s.event.id)
    ensures forall p :: p in last.nodes ==> UniqueIds(last.nodes[p].box.inbox) && UniqueIds(last.nodes[p].log)
    ensures forall p, e :: p in last.nodes && e in last.nodes[p].box.inbox ==>
      exists s :: s in last.sent && s.event.peer == p && e == EventFromMessage(MessageOf(s), 0)
  {
    RunKeeps(w, run, last);
    RunKeepsRefusedLogged(w, run, last);
    RunConclusions(last);
  }

  // What the invariants say to an observer.
  lemma RunConclusions(w: World)
    requires Inv(w) && RefusedLogged(w)
    ensures forall s :: s in w.sent ==> s.by_ in w.nodes && (UnderWay(w, s) <==> !s.refused)
    ensures forall s :: s in w.sent && s.refused ==>
      ReachesNobody(w, s.event.id) && HasId(w.nodes[s.by_].log, s.event.id)
    ensures forall p :: p in w.nodes ==> UniqueIds(w.nodes[p].box.inbox) && UniqueIds(w.nodes[p].log)
    ensures forall p, e :: p in w.nodes && e in w.nodes[p].box.inbox ==>
      exists s :: s in w.sent && s.event.peer == p && e == EventFromMessage(MessageOf(s), 0)
  {
    assert forall p :: p in w.nodes ==> UniqueIds(w.nodes[p].box.inbox) && UniqueIds(w.nodes[p].log) by {
      assert forall p :: p in w.nodes ==> NodeOk(p, w.nodes[p], w.sent, w.wire, w.next);
    }
    hide NodeOk, UnderWay, ReachesNobody, HasId, UniqueIds;
    forall s | s in w.sent ensures s.by_ in w.nodes && (UnderWay(w, s) <==> !s.refused)
      && (s.refused ==> ReachesNobody(w, s.event.id) && HasId(w.nodes[s.by_].log, s.event.id))
    {
      UnderWayIff(w, s);
    }
    forall p, e | p in w.nodes && e in w.nodes[p].box.inbox
      ensures exists s :: s in w.sent && s.event.peer == p && e == EventFromMessage(MessageOf(s), 0)
    {
      InboxWasSent(w, p, e);
    }
  }

  lemma InboxWasSent(w: World, p: PeerId, e: Event)
    requires Inv(w) && p in w.nodes && e in w.nodes[p].box.inbox
    ensures exists s :: s in w.sent && s.event.peer == p && e == EventFromMessage(MessageOf(s), 0)
  {
    hide UniqueIds, AllBelow, LogOrigin, IsSentId, Waiting;
    assert FromWire(w.wire, p, e);
    var m :| m in w.wire && m.recipient == p && e == EventFromMessage(m, 0);
    assert IsSentMessage(m, w.sent);
  }

  /** Once a peer fetches everything accepted for it, every event another peer sent it
      is still waiting there, or logged here exactly as sent, or was refused in real
      time and is unknown to this peer's mailbox. */
  lemma FetchingEverythingConverges(w: World, q: PeerId, p: PeerId, msgs: seq<Message>, s: Sent)
    requires Inv(w) && Enabled(w, DoPull(q, p, msgs)) && p != q
    requires forall m :: m in w.wire && m.sender == p && m.recipient == q ==> m in msgs
    requires s in w.sent && s.by_ == p && s.event.peer == q
    ensures var n := Next(w, DoPull(q, p, msgs)).nodes[q];
      if s.refused then s.event.id !in n.box.state
      else Waiting(w.nodes[p].box, s.event) ||
           (s.event.id in n.box.state && EventFromMessage(MessageOf(s), 0) in n.log)
  {
    hide Inv, Waiting, NodeOk, ReachesNobody;
    UnderWayIff(w, s);
    if s.refused {
      PullKeeps(w, DoPull(q, p, msgs));
      var w' := Next(w, DoPull(q, p, msgs));
      UnderWayIff(w', s);
      assert ReachesNobody(w', s.event.id) ==> s.event.id !in w'.nodes[q].box.state by { Unknown(w', s.event.id, q); }
    } else if !Waiting(w.nodes[p].box, s.event) {
      assert HasId(Arrivals(msgs, w.next), s.event.id) by { ArrivalOf(msgs, w.next, MessageOf(s)); }
      FetchedIsLogged(w, q, p, msgs, s);
    }
  }

  lemma Unknown(w: World, id: Id, q: PeerId)
    requires q in w.nodes
    ensures ReachesNobody(w, id) ==> id !in w.nodes[q].box.state
  {}

  lemma ArrivalOf(msgs: seq<Message>, base: Id, m: Message)
    requires m in msgs && m.eventId.Some?
    ensures HasId(Arrivals(msgs, base), m.eventId.value)
  {
    var i :| 0 <= i < |msgs| && msgs[i] == m;
    assert Arrivals(msgs, base)[i].id == m.eventId.value;
  }

  // An ask delivered in real time arrives with its clock, unlike one from the outbox.
  lemma LiveAskKeepsClock(e: Event, at: Time, p: PeerId, messageId: Id)
    requires e.kind == Ask && e.payload.declaredKind.None?
    ensures var r := EventFromMessage(MessageOf(Sent(p, Live(e, at), messageId, false)), 0);
      && r.id == e.id && r.kind == Ask && r.peer == p && r.time == at && r.clock == e.clock
      && r.inReplyTo == e.inReplyTo && r.payload.body == e.payload.body
  {}

  // A fetched message of another peer is found in the log as it was sent.
  lemma FetchedIsLogged(w: World, q: PeerId, p: PeerId, msgs: seq<Message>, s: Sent)
    requires Inv(w) && Enabled(w, DoPull(q, p, msgs)) && p != q
    requires s in w.sent && s.by_ == p && s.event.peer == q
    requires HasId(Arrivals(msgs, w.next), s.event.id)
    ensures var n := Next(w, DoPull(q, p, msgs)).nodes[q];
      s.event.id in n.box.state && EventFromMessage(MessageOf(s), 0) in n.log
  {
    hide UniqueIds, AllBelow, PullBox, PullLog, Arrivals, Waiting;
    var w' := Next(w, DoPull(q, p, msgs));
    var n, n', es := w.nodes[q], w'.nodes[q], Arrivals(msgs, w.next);
    PullKeeps(w, DoPull(q, p, msgs));
    PullBoxLaws(n.box, es);
    PullLogLaws(n.log, es);
    var e := n'.log[Find(n'.log, s.event.id)];
    assert LogOrigin(q, e, w'.sent, w'.wire);
    assert IsSentId(w'.sent, e.id);
    assert !SentBy(w'.sent, q, e);
    var m' :| m' in w'.wire && m'.recipient == q && e == EventFromMessage(m', 0);
    assert IsSentMessage(m', w'.sent);
  }
}
