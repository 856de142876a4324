/** Synchronising with a peer that came online (server/async_comm/sync_protocol.py):
    push the outbox, pull the inbox, reconcile simulated with real answers. */
module SyncProtocols {
  import opened Collections
  import opened CommTypes
  import opened DeliveryStatus
  import opened Mailboxes
  import opened ConversationLogs

  datatype Message = Message(
    messageId: Id, eventId: Option<Id>, sender: PeerId, recipient: PeerId,
    kind: EventKind, payload: Payload, time: Time, inReplyTo: Option<Id>)

  // What the transport reports about a batch.
  datatype SyncResult = SyncResult(success: bool, deliveredIds: set<Id>)

  // A resolver either raises or names a decision and a note; an unknown decision
  // becomes an event type as it stands.
  datatype Verdict = Raised | Ruled(decision: EventKind, note: Text)

  // What a pass makes of one simulated answer: the verdict and the real answer it
  // rests on, if there are both.
  datatype Ruling = Skip | Rule(decision: EventKind, note: Text, real_: Text)

  type Resolver = (Text, Text, Id) -> Verdict

  // ----- Converters -----

  function BuildMessage(e: Event, self: PeerId, to: PeerId): Message {
    Message(e.id, Some(e.id), self, to, e.kind, e.payload, e.time, e.inReplyTo)
  }

  function WireKind(kind: EventKind, payload: Payload): EventKind {
    if payload.declaredKind.Some? then payload.declaredKind.value
    else if kind == Answer then RealtimeAnswer
    else kind
  }

  function EventFromMessage(m: Message, newId: Id): Event {
    var kind := WireKind(m.kind, m.payload);
    Event(
      if m.eventId.Some? then m.eventId.value else newId,
      kind, m.sender, m.time,
      if m.payload.clock.Some? then m.payload.clock.value else map[],
      m.payload, m.inReplyTo, false, kind == RealtimeAnswer, 0, false)
  }

  /** What survives the wire: identity, time, payload and reply link always; the
      whole event exactly when its type is not overridden, its clock travels in
      the payload, and it carries no local marks. */
  lemma WireRoundTrip(e: Event, self: PeerId, to: PeerId, newId: Id)
    ensures var r := EventFromMessage(BuildMessage(e, self, to), newId);
      && r.id == e.id && r.peer == self && r.time == e.time
      && r.payload == e.payload && r.inReplyTo == e.inReplyTo
      && (r == e.(peer := self) <==>
            && (e.payload.declaredKind == Some(e.kind) || (e.payload.declaredKind.None? && e.kind != Answer))
            && e.clock == (if e.payload.clock.Some? then e.payload.clock.value else map[])
            && !e.degraded && e.realtime == (e.kind == RealtimeAnswer) && e.basedOn == 0 && !e.snapshotStale)
  {}

  /** What type a message arrives as: the one its payload declares, if any; otherwise an
      `answer` arrives as a real answer, and every other type as it is. Only a real answer
      is marked as given in real time. */
  lemma ArrivesAs(m: Message, newId: Id)
    ensures var e := EventFromMessage(m, newId);
      && (m.payload.declaredKind.Some? ==> e.kind == m.payload.declaredKind.value)
      && (m.payload.declaredKind.None? && m.kind == Answer ==> e.kind == RealtimeAnswer)
      && (m.payload.declaredKind.None? && m.kind != Answer ==> e.kind == m.kind)
      && (e.realtime <==> e.kind == RealtimeAnswer) && !e.degraded
      && e.peer == m.sender && e.id == (if m.eventId.Some? then m.eventId.value else newId)
      && e.payload == m.payload && e.inReplyTo == m.inReplyTo && e.time == m.time
  {}

  // ----- Push -----

  /** The waiting messages for one peer. */
  function PendingFor(b: Box, p: PeerId): seq<Event> {
    Filter(WithPeer(p), Pending(b))
  }

  function Offers(es: seq<Event>, self: PeerId, to: PeerId): seq<Message> {
    seq(|es|, i requires 0 <= i < |es| => BuildMessage(es[i], self, to))
  }

  // A report without ids but with success vouches for the whole batch.
  function Acked(reply: SyncResult): Event -> bool {
    (e: Event) => if reply.deliveredIds != {} then e.id in reply.deliveredIds else reply.success
  }

  function MarkDelivered(state: StatusMap, es: seq<Event>): StatusMap {
    map id | id in state :: if HasId(es, id) then Delivered else state[id]
  }

  function Push(b: Box, p: PeerId, reply: SyncResult): Box {
    b.(state := MarkDelivered(b.state, Filter(Acked(reply), PendingFor(b, p))))
  }

  lemma PendingMembers(b: Box, p: PeerId)
    ensures forall e :: e in Pending(b) <==> e in b.outbox && e.id in b.state && b.state[e.id] == PendingDelivery
    ensures forall e :: e in PendingFor(b, p) <==> e in Pending(b) && e.peer == p
  {
    FilterMembers(HasStatus(b.state, PendingDelivery), b.outbox);
    FilterMembers(WithPeer(p), Pending(b));
  }

  lemma SameIdSameEvent(es: seq<Event>, e: Event, f: Event)
    requires UniqueIds(es) && e in es && f in es && e.id == f.id
    ensures e == f
  {
    var i :| 0 <= i < |es| && es[i] == e;
    var j :| 0 <= j < |es| && es[j] == f;
  }

  // After a push an outbox message waits exactly if it did and was not acknowledged.
  lemma PushedStatus(b: Box, p: PeerId, reply: SyncResult, e: Event)
    requires b.Valid() && e in b.outbox
    ensures HasStatus(Push(b, p, reply).state, PendingDelivery)(e)
       <==> HasStatus(b.state, PendingDelivery)(e) && !(e.peer == p && Acked(reply)(e))
  {
    var acked := Filter(Acked(reply), PendingFor(b, p));
    PendingMembers(b, p);
    FilterMembers(Acked(reply), PendingFor(b, p));
    if HasId(acked, e.id) {
      var f := acked[Find(acked, e.id)];
      assert f in acked;
      SameIdSameEvent(b.outbox, e, f);
    }
    if e in acked {
      var i :| 0 <= i < |acked| && acked[i] == e;
      assert HasId(acked, e.id);
    }
  }

  /** A push removes from the waiting messages of that peer exactly the
      acknowledged ones, so the count it returns is their drop; the other peers'
      waiting messages, both boxes and all other statuses stay as they were. */
  lemma PushLaws(b: Box, p: PeerId, reply: SyncResult, q: PeerId)
    requires b.Valid()
    ensures var b' := Push(b, p, reply); var acked := Filter(Acked(reply), PendingFor(b, p));
      && b'.Valid() && b'.inbox == b.inbox && b'.outbox == b.outbox && Advances(b.state, b'.state)
      && PendingFor(b', p) == Filter((e: Event) => !Acked(reply)(e), PendingFor(b, p))
      && |acked| == |PendingFor(b, p)| - |PendingFor(b', p)|
      && (q != p ==> PendingFor(b', q) == PendingFor(b, q))
      && forall id :: id in b.state && !HasId(acked, id) ==> b'.state[id] == b.state[id]
  {
    var b' := Push(b, p, reply);
    var was, now_ := HasStatus(b.state, PendingDelivery), HasStatus(b'.state, PendingDelivery);
    var unacked := (e: Event) => !Acked(reply)(e);
    var wasP := (e: Event) => was(e) && WithPeer(p)(e);
    var isP := (e: Event) => now_(e) && WithPeer(p)(e);
    var left := (e: Event) => wasP(e) && unacked(e);
    forall e | e in b.outbox ensures now_(e) <==> was(e) && !(e.peer == p && Acked(reply)(e)) {
      PushedStatus(b, p, reply, e);
    }
    FilterTwice(was, WithPeer(p), wasP, b.outbox);
    FilterTwice(wasP, unacked, left, b.outbox);
    FilterTwice(now_, WithPeer(p), isP, b.outbox);
    FilterAgree(isP, left, b.outbox);
    FilterSplit(Acked(reply), unacked, PendingFor(b, p));
    if q != p {
      var wasQ := (e: Event) => was(e) && WithPeer(q)(e);
      FilterTwice(was, WithPeer(q), wasQ, b.outbox);
      FilterTwice(now_, WithPeer(q), wasQ, b.outbox);
    }
    PushAdvances(b, p, reply);
  }

  /** What a push makes of the transport's answer: without ids, success takes all that
      waits for the peer and failure takes nothing; with ids, a message goes on waiting
      exactly if it is not named. What is taken is delivered. */
  lemma PushByReply(b: Box, p: PeerId, reply: SyncResult)
    requires b.Valid()
    ensures var b' := Push(b, p, reply);
      && (reply.deliveredIds == {} && !reply.success ==> b' == b)
      && (reply.deliveredIds == {} && reply.success ==> PendingFor(b', p) == [])
      && (reply.deliveredIds != {} ==> PendingFor(b', p) == Filter(NotIn(reply.deliveredIds), PendingFor(b, p)))
      && (forall e :: e in PendingFor(b, p) && e !in PendingFor(b', p) ==>
            e.id in b'.state && b'.state[e.id] == Delivered)
  {
    var b', waiting, acked := Push(b, p, reply), PendingFor(b, p), Filter(Acked(reply), PendingFor(b, p));
    PushLaws(b, p, reply, p);
    PendingMembers(b, p);
    FilterMembers(Acked(reply), waiting);
    FilterMembers((e: Event) => !Acked(reply)(e), waiting);
    forall e | e in waiting && e !in PendingFor(b', p) ensures e.id in b'.state && b'.state[e.id] == Delivered {
      assert e in acked;
      var i :| 0 <= i < |acked| && acked[i] == e;
      assert HasId(acked, e.id);
    }
    if reply.deliveredIds != {} {
      FilterAgree((e: Event) => !Acked(reply)(e), NotIn(reply.deliveredIds), waiting);
    } else if reply.success {
      FilterNone((e: Event) => !Acked(reply)(e), waiting);
    } else {
      FilterNone(Acked(reply), waiting);
      NothingToMark(b.state, Acked(reply));
    }
  }

  lemma PushAdvances(b: Box, p: PeerId, reply: SyncResult)
    requires b.Valid()
    ensures Advances(b.state, Push(b, p, reply).state)
  {
    var acked := Filter(Acked(reply), PendingFor(b, p));
    PendingMembers(b, p);
    FilterMembers(Acked(reply), PendingFor(b, p));
    forall id | id in b.state && HasId(acked, id) ensures b.state[id] == PendingDelivery {
      assert acked[Find(acked, id)] in acked;
    }
  }

  lemma AckedArePending(b: Box, p: PeerId, reply: SyncResult)
    requires b.Valid()
    ensures var acked := Filter(Acked(reply), PendingFor(b, p));
      && UniqueIds(acked)
      && forall i :: 0 <= i < |acked| ==> acked[i].id in b.state && b.state[acked[i].id] == PendingDelivery
  {
    var acked := Filter(Acked(reply), PendingFor(b, p));
    PendingMembers(b, p);
    FilterMembers(Acked(reply), PendingFor(b, p));
    FilterKeepsUniqueIds(HasStatus(b.state, PendingDelivery), b.outbox);
    FilterKeepsUniqueIds(WithPeer(p), Pending(b));
    FilterKeepsUniqueIds(Acked(reply), PendingFor(b, p));
    forall i | 0 <= i < |acked| ensures acked[i].id in b.state && b.state[acked[i].id] == PendingDelivery {
      assert acked[i] in acked;
    }
  }

  lemma NothingToMark(state: StatusMap, keep: Event -> bool)
    ensures MarkDelivered(state, []) == state
    ensures Filter(keep, []) == []
  {}

  lemma MarkStep(state: StatusMap, es: seq<Event>, i: nat)
    requires i < |es| && UniqueIds(es) && es[i].id in state && state[es[i].id] == PendingDelivery
    ensures MarkDelivered(state, es[..i])[es[i].id] == PendingDelivery
    ensures MarkDelivered(state, es[..i+1]) == MarkDelivered(state, es[..i])[es[i].id := Delivered]
  {
    assert es[..i+1] == es[..i] + [es[i]];
    AppendedIds(es[..i], es[i]);
    assert !HasId(es[..i], es[i].id);
  }

  // ----- Pull -----

  function Arrivals(msgs: seq<Message>, base: Id): seq<Event> {
    seq(|msgs|, i requires 0 <= i < |msgs| => EventFromMessage(msgs[i], base + i))
  }

  function PullBox(b: Box, es: seq<Event>): Box {
    if es == [] then b else AppendInbox(PullBox(b, es[..|es|-1]), es[|es|-1])
  }

  function PullLog(log: seq<Event>, es: seq<Event>): seq<Event> {
    if es == [] then log else Append(PullLog(log, es[..|es|-1]), es[|es|-1])
  }

  /** Pulling only adds: old statuses and messages stay, every arrival is known
      afterwards, and whatever was added to the inbox is an arrival. */
  lemma {:induction false} PullBoxLaws(b: Box, es: seq<Event>)
    requires b.Valid()
    ensures var b' := PullBox(b, es);
      && b'.Valid() && b'.outbox == b.outbox && b.inbox <= b'.inbox
      && (forall id :: id in b'.state <==> id in b.state || HasId(es, id))
      && (forall id :: id in b.state ==> b'.state[id] == b.state[id])
      && (forall id :: id in b'.state && id !in b.state ==> b'.state[id] == Delivered && HasId(b'.inbox, id))
      && (forall e :: e in b'.inbox ==> e in b.inbox || e in es)
  {
    if es == [] {
    } else {
      var init, e := es[..|es|-1], es[|es|-1];
      assert es == init + [e];
      PullBoxLaws(b, init);
      ApplyLaws(PullBox(b, init), Receive(e));
      AppendedIds(init, e);
      AppendedIds(PullBox(b, init).inbox, e);
    }
  }

  lemma {:induction false} PullLogLaws(log: seq<Event>, es: seq<Event>)
    requires UniqueIds(log)
    ensures var log' := PullLog(log, es);
      && UniqueIds(log') && log <= log'
      && (forall id :: HasId(log', id) <==> HasId(log, id) || HasId(es, id))
      && (forall e :: e in log' ==> e in log || e in es)
  {
    if es == [] {
    } else {
      var init, e := es[..|es|-1], es[|es|-1];
      assert es == init + [e];
      PullLogLaws(log, init);
      AppendLaws(PullLog(log, init), e);
      AppendedIds(init, e);
    }
  }

  lemma {:induction false} PullKnown(b: Box, log: seq<Event>, es: seq<Event>)
    requires forall e :: e in es ==> e.id in b.state && HasId(log, e.id)
    ensures PullBox(b, es) == b && PullLog(log, es) == log
  {
    if es == [] {
    } else {
      PullKnown(b, log, es[..|es|-1]);
    }
  }

  /** Fetching the same messages again changes nothing exactly when every message
      carries an event id: one without is given a new id each time. */
  lemma PullAgainIff(b: Box, log: seq<Event>, msgs: seq<Message>, base: Id, again: Id)
    requires b.Valid() && UniqueIds(log)
    requires var b' := PullBox(b, Arrivals(msgs, base)); var log' := PullLog(log, Arrivals(msgs, base));
             forall id :: again <= id ==> id !in b'.state && !HasId(log', id)
    ensures var b' := PullBox(b, Arrivals(msgs, base)); var log' := PullLog(log, Arrivals(msgs, base));
      (PullBox(b', Arrivals(msgs, again)) == b' && PullLog(log', Arrivals(msgs, again)) == log')
        <==> forall m :: m in msgs ==> m.eventId.Some?
  {
    hide PullBox, PullLog, UniqueIds, WireKind;
    var first, second := Arrivals(msgs, base), Arrivals(msgs, again);
    var b', log' := PullBox(b, first), PullLog(log, first);
    PullBoxLaws(b, first);
    PullLogLaws(log, first);
    if forall m :: m in msgs ==> m.eventId.Some? {
      forall e | e in second ensures e.id in b'.state && HasId(log', e.id) {
        var i :| 0 <= i < |second| && second[i] == e;
        assert msgs[i] in msgs && first[i].id == e.id;
      }
      PullKnown(b', log', second);
    } else {
      var m :| m in msgs && m.eventId.None?;
      var i :| 0 <= i < |msgs| && msgs[i] == m;
      assert second[i].id == again + i;
      PullBoxLaws(b', second);
      assert again + i !in b'.state && HasId(second, again + i);
    }
  }

  // A message without an event id is stored anew each time it is fetched.
  lemma UnnamedIsStoredTwice(m: Message)
    requires m.eventId.None?
    ensures var box := PullBox(PullBox(Box([], [], map[]), Arrivals([m], 0)), Arrivals([m], 1));
      box.inbox == [EventFromMessage(m, 0), EventFromMessage(m, 1)]
  {
    var first, second := Arrivals([m], 0), Arrivals([m], 1);
    assert first == [EventFromMessage(m, 0)] && second == [EventFromMessage(m, 1)];
    assert first[..0] == [] && second[..0] == [];
    assert PullBox(Box([], [], map[]), first) == AppendInbox(Box([], [], map[]), first[0]);
  }

  // An ask that carries its clock in the event only arrives without it.
  lemma ClockIsLostOnTheWire(p: PeerId, to: PeerId)
    ensures var e := PlainEvent(0, Ask, to, 0, None).(clock := map[p := 1]);
      EventFromMessage(BuildMessage(e, p, to), 1).clock == map[] != e.clock
  {
    var clock: Clock := map[p := 1];
    assert p in clock;
  }

  // ----- Reconcile -----

  function OfKind(k: EventKind): Event -> bool {
    (e: Event) => e.kind == k
  }

  function AnswersTo(ask: Id): Event -> bool {
    (e: Event) => e.inReplyTo == Some(ask)
  }

  function Simulated(log: seq<Event>, p: PeerId): seq<Event> {
    Filter(OfKind(SimulatedAnswer), LoadByPeer(log, p))
  }

  function Realtime(log: seq<Event>, p: PeerId): seq<Event> {
    Filter(OfKind(RealtimeAnswer), LoadByPeer(log, p))
  }

  // The real answer a simulated one is compared with: the first to the same ask.
  function Counterpart(reals: seq<Event>, sim: Event): Option<Event> {
    if sim.inReplyTo.None? then None
    else
      var matching := Filter(AnswersTo(sim.inReplyTo.value), reals);
      if matching == [] then None else Some(matching[0])
  }

  // Without a counterpart there is nothing to rule on; a raising resolver is skipped too.
  function Decide(reals: seq<Event>, resolve: Resolver, sim: Event): Ruling {
    var real_ := Counterpart(reals, sim);
    if real_.None? then Skip
    else match resolve(sim.payload.answer, real_.value.payload.answer, sim.id)
      case Raised => Skip
      case Ruled(decision, note) => Rule(decision, note, real_.value.payload.answer)
  }

  // How a pass over this log rules on each simulated answer.
  function Rulings(log: seq<Event>, p: PeerId, resolve: Resolver): Event -> Ruling {
    var reals := Realtime(log, p);
    (sim: Event) => Decide(reals, resolve, sim)
  }

  function Resolution(p: PeerId, ruling: Ruling, sim: Event, id: Id, now: Time): Event
    requires ruling.Rule?
  {
    var grounds := Grounds(ruling.note, sim.payload.answer, ruling.real_);
    var payload := Payload(None, None, 0, 0, Some(grounds));
    Event(id, ruling.decision, p, now, map[], payload, Some(sim.id), false, false, 0, false)
  }

  // The resolution events for a list of simulated answers, in the order they are
  // visited, numbered from `base`.
  function Resolutions(rule: Event -> Ruling, p: PeerId, sims: seq<Event>, base: Id, now: Time): seq<Event> {
    if sims == [] then []
    else
      var r := Resolutions(rule, p, sims[..|sims|-1], base, now);
      var sim := sims[|sims|-1];
      match rule(sim)
      case Skip => r
      case Rule(_, _, _) => r + [Resolution(p, rule(sim), sim, base + |r|, now)]
  }

  function StatusFor(decision: EventKind): Option<Status> {
    match decision
    case ConfirmedEvent => Some(Confirmed)
    case RevisedEvent => Some(Revised)
    case ReviewEvent => Some(NeedsHumanReview)
    case _ => None
  }

  function SettleOne(state: StatusMap, id: Id, decision: EventKind): StatusMap {
    var s := StatusFor(decision);
    if s.None? then state else SetStatus(state, id, s.value)
  }

  function Settle(state: StatusMap, es: seq<Event>): (r: StatusMap)
    ensures r.Keys == state.Keys
  {
    if es == [] then state
    else
      var e := es[|es|-1];
      var before := Settle(state, es[..|es|-1]);
      if e.inReplyTo.None? then before else SettleOne(before, e.inReplyTo.value, e.kind)
  }

  function Settled(b: Box, added: seq<Event>): Box {
    b.(state := Settle(b.state, added))
  }

  /** What one pass adds to the log. */
  function Reconciled(log: seq<Event>, p: PeerId, resolve: Resolver, base: Id, now: Time): seq<Event> {
    Resolutions(Rulings(log, p, resolve), p, Simulated(log, p), base, now)
  }

  datatype Tally = Tally(confirmed: nat, revised: nat, needsReview: nat)

  function Bump(t: Tally, decision: EventKind): Tally {
    match decision
    case ConfirmedEvent => t.(confirmed := t.confirmed + 1)
    case RevisedEvent => t.(revised := t.revised + 1)
    case ReviewEvent => t.(needsReview := t.needsReview + 1)
    case _ => t
  }

  // How many events of each resolution type a list holds.
  function TallyOf(es: seq<Event>): Tally {
    Tally(|Filter(OfKind(ConfirmedEvent), es)|, |Filter(OfKind(RevisedEvent), es)|, |Filter(OfKind(ReviewEvent), es)|)
  }

  // The three decisions and the final states they stand for.
  lemma DecisionsSettle()
    ensures StatusFor(ConfirmedEvent) == Some(Confirmed) && StatusFor(RevisedEvent) == Some(Revised)
    ensures StatusFor(ReviewEvent) == Some(NeedsHumanReview)
    ensures forall k :: StatusFor(k).Some? ==> Terminal(StatusFor(k).value)
  {}

  /** Each count is the number of logged events whose decision leads to its state. */
  lemma TallyCounts(es: seq<Event>)
    ensures var t := TallyOf(es);
      && t.confirmed == |Filter((e: Event) => StatusFor(e.kind) == Some(Confirmed), es)|
      && t.revised == |Filter((e: Event) => StatusFor(e.kind) == Some(Revised), es)|
      && t.needsReview == |Filter((e: Event) => StatusFor(e.kind) == Some(NeedsHumanReview), es)|
  {
    FilterAgree((e: Event) => StatusFor(e.kind) == Some(Confirmed), OfKind(ConfirmedEvent), es);
    FilterAgree((e: Event) => StatusFor(e.kind) == Some(Revised), OfKind(RevisedEvent), es);
    FilterAgree((e: Event) => StatusFor(e.kind) == Some(NeedsHumanReview), OfKind(ReviewEvent), es);
  }

  // ----- One peer -----

  datatype Stage = Pushing | Pulling
  datatype SyncReport = SyncReport(pushed: nat, received: nat, tally: Tally, errors: seq<Stage>)

  // Without a waiting message the transport is not called, so it cannot fail.
  function Failures(b: Box, p: PeerId, reply: Option<SyncResult>, msgs: Option<seq<Message>>): seq<Stage> {
    if reply.None? && PendingFor(b, p) != [] then (if msgs.None? then [Pushing, Pulling] else [Pushing])
    else if msgs.None? then [Pulling] else []
  }

  // A stage whose transport call raises leaves everything as it was.
  function PushStage(b: Box, p: PeerId, reply: Option<SyncResult>): Box {
    if reply.Some? then Push(b, p, reply.value) else b
  }

  function PushedCount(b: Box, p: PeerId, reply: Option<SyncResult>): nat {
    if reply.Some? then |Filter(Acked(reply.value), PendingFor(b, p))| else 0
  }

  function Fetched(msgs: Option<seq<Message>>, base: Id): seq<Event> {
    if msgs.Some? then Arrivals(msgs.value, base) else []
  }

  function ReconcileStage(log: seq<Event>, p: PeerId, resolver: Option<Resolver>, base: Id, now: Time): seq<Event> {
    if resolver.Some? then Reconciled(log, p, resolver.value, base, now) else []
  }

  /** Which stages are reported as failed: pushing exactly if something waited for the peer
      and the transport raised, pulling exactly if fetching raised; pushing first. */
  lemma FailuresIff(b: Box, p: PeerId, reply: Option<SyncResult>, msgs: Option<seq<Message>>)
    ensures var errors := Failures(b, p, reply, msgs);
      && (Pushing in errors <==> reply.None? && exists e :: e in PendingFor(b, p))
      && (Pulling in errors <==> msgs.None?)
      && |errors| == (if Pushing in errors then 1 else 0) + (if Pulling in errors then 1 else 0)
      && (Pushing in errors ==> errors[0] == Pushing)
  {
    if PendingFor(b, p) != [] {
      assert PendingFor(b, p)[0] in PendingFor(b, p);
    }
  }

  /** The reported count is how many messages for the peer stopped waiting, also when the
      transport raised. */
  lemma PushedIsDrop(b: Box, p: PeerId, reply: Option<SyncResult>)
    requires b.Valid()
    ensures PushedCount(b, p, reply) == |PendingFor(b, p)| - |PendingFor(PushStage(b, p, reply), p)|
    ensures reply.None? ==> PushedCount(b, p, reply) == 0 && PushStage(b, p, reply) == b
    ensures reply.Some? ==>
      var waiting, left := PendingFor(b, p), PendingFor(PushStage(b, p, reply), p);
      var ids := reply.value.deliveredIds;
      left == if ids != {} then Filter(NotIn(ids), waiting) else if reply.value.success then [] else waiting
  {
    if reply.Some? {
      PushLaws(b, p, reply.value, p);
      PushByReply(b, p, reply.value);
    }
  }

  /** Nothing fetched is left out: afterwards the log knows every message that bears an
      event id, and the count is that of the messages. */
  lemma FetchedIsStored(b: Box, log: seq<Event>, msgs: seq<Message>, base: Id)
    requires b.Valid() && UniqueIds(log)
    ensures var es := Fetched(Some(msgs), base);
      && |es| == |msgs| && Fetched(None, base) == []
      && forall m :: m in msgs && m.eventId.Some? ==>
           HasId(PullLog(log, es), m.eventId.value) && m.eventId.value in PullBox(b, es).state
  {
    hide PullLog, PullBox;
    var es := Fetched(Some(msgs), base);
    PullLogLaws(log, es);
    PullBoxLaws(b, es);
    forall m | m in msgs && m.eventId.Some? ensures HasId(es, m.eventId.value) {
      var i :| 0 <= i < |msgs| && msgs[i] == m;
      assert es[i].id == m.eventId.value;
    }
  }

  class SyncProtocol {
    const mailbox: Mailbox
    const log: ConversationLog
    const self: PeerId
    const resolver: Option<Resolver>

    constructor (mailbox: Mailbox, log: ConversationLog, self: PeerId, resolver: Option<Resolver>)
      ensures this.mailbox == mailbox && this.log == log && this.self == self && this.resolver == resolver
    {
      this.mailbox, this.log, this.self, this.resolver := mailbox, log, self, resolver;
    }

    ghost predicate Valid()
      reads this, mailbox, log
    {
      mailbox.Contents().Valid() && log.Valid()
    }

    /** Offers the waiting messages for a peer to the transport, whose answer is
        `reply`, and marks the acknowledged ones delivered. */
    method PushOutbox(p: PeerId, reply: SyncResult) returns (count: nat, offered: seq<Message>)
      requires Valid()
      modifies mailbox`state
      ensures Valid()
      ensures mailbox.Contents() == Push(old(mailbox.Contents()), p, reply)
      ensures count == |Filter(Acked(reply), PendingFor(old(mailbox.Contents()), p))|
      ensures offered == Offers(PendingFor(old(mailbox.Contents()), p), self, p)
      ensures forall i :: 0 <= i < |offered| ==>
        && offered[i].sender == self && offered[i].recipient == p
        && offered[i].eventId == Some(PendingFor(old(mailbox.Contents()), p)[i].id)
      ensures reply.deliveredIds == {} && !reply.success ==> count == 0 && mailbox.state == old(mailbox.state)
      ensures reply.deliveredIds == {} && reply.success ==>
        count == |offered| && PendingFor(mailbox.Contents(), p) == []
      ensures reply.deliveredIds != {} ==>
        PendingFor(mailbox.Contents(), p) == Filter(NotIn(reply.deliveredIds), PendingFor(old(mailbox.Contents()), p))
        && count == |offered| - |PendingFor(mailbox.Contents(), p)|
    {
      hide UniqueIds, HasId, Filter;
      ghost var b := mailbox.Contents();
      count, offered := 0, [];
      FilterAgree(Selected(b.state, Some(PendingDelivery)), HasStatus(b.state, PendingDelivery), b.outbox);
      var pending := mailbox.LoadEvents(mailbox.outbox, Some(PendingDelivery), None);
      var targets := Filter(WithPeer(p), pending);
      NothingToMark(b.state, Acked(reply));
      PushLaws(b, p, reply, p);
      PushByReply(b, p, reply);
      if targets == [] {
        return;
      }
      offered := Offers(targets, self, p);
      var successful := Filter(Acked(reply), targets);
      AckedArePending(b, p, reply);
      for i := 0 to |successful|
        invariant count == i
        invariant mailbox.outbox == b.outbox && mailbox.inbox == b.inbox
        invariant mailbox.state == MarkDelivered(b.state, successful[..i])
      {
        var e := successful[i];
        MarkStep(b.state, successful, i);
        var outcome := mailbox.UpdateStatus(e.id, Delivered);
        if outcome == Updated {
          count := count + 1;
        }
      }
      assert successful[..|successful|] == successful;
    }

    /** Stores fetched messages; both stores drop ids they know, the count does not. */
    method PullInbox(msgs: seq<Message>, base: Id) returns (count: nat)
      modifies mailbox, log`events
      ensures count == |msgs|
      ensures mailbox.Contents() == PullBox(old(mailbox.Contents()), Arrivals(msgs, base))
      ensures log.events == PullLog(old(log.events), Arrivals(msgs, base))
    {
      ghost var es := Arrivals(msgs, base);
      ghost var b, was := mailbox.Contents(), log.events;
      count := 0;
      for i := 0 to |msgs|
        invariant count == i
        invariant mailbox.Contents() == PullBox(b, es[..i])
        invariant log.events == PullLog(was, es[..i])
      {
        var e := EventFromMessage(msgs[i], base + i);
        var _ := mailbox.AppendToInbox(e);
        var _ := log.AppendEvent(e);
        count := count + 1;
        assert es[..i+1][..i] == es[..i] && es[..i+1][i] == e;
      }
      assert es[..|msgs|] == es;
    }

    /** Settles the mailbox status of a decided answer; illegal moves are ignored. */
    method UpdateMailboxStatusForResolution(id: Id, decision: EventKind)
      modifies mailbox`state
      ensures mailbox.state == SettleOne(old(mailbox.state), id, decision)
    {
      var s := StatusFor(decision);
      if s.None? {
        return;
      }
      var _ := mailbox.UpdateStatus(id, s.value);
    }

    /** Logs the resolution of one answer and settles its mailbox status. */
    method RecordResolution(p: PeerId, ruling: Ruling, sim: Event, id: Id, now: Time)
      requires !HasId(log.events, id) && ruling.Rule?
      modifies mailbox`state, log`events
      ensures log.events == old(log.events) + [Resolution(p, ruling, sim, id, now)]
      ensures mailbox.state == SettleOne(old(mailbox.state), sim.id, ruling.decision)
    {
      var _ := log.AppendEvent(Resolution(p, ruling, sim, id, now));
      UpdateMailboxStatusForResolution(sim.id, ruling.decision);
    }

    /** Decides every simulated answer that has a real counterpart, logging one
        resolution event for each and settling the mailbox status if there is one. */
    method ReconcileSimulatedAnswers(p: PeerId, base: Id, now: Time) returns (tally: Tally)
      requires AllBelow(log.events, base)
      modifies mailbox`state, log`events
      ensures var added := ReconcileStage(old(log.events), p, resolver, base, now);
        && log.events == old(log.events) + added
        && mailbox.Contents() == Settled(old(mailbox.Contents()), added)
        && tally == TallyOf(added)
    {
      tally := Tally(0, 0, 0);
      if resolver.None? {
        assert log.events == log.events + [];
        return;
      }
      var events := log.LoadPeer(p);
      var sims := Filter(OfKind(SimulatedAnswer), events);
      var reals := Filter(OfKind(RealtimeAnswer), events);
      var resolve := resolver.value;
      tally := RecordRulings(p, (sim: Event) => Decide(reals, resolve, sim), sims, base, now);
    }

    method RecordRulings(
      p: PeerId, rule: Event -> Ruling, sims: seq<Event>, base: Id, now: Time)
      returns (tally: Tally)
      requires AllBelow(log.events, base)
      modifies mailbox`state, log`events
      ensures var added := Resolutions(rule, p, sims, base, now);
        && log.events == old(log.events) + added
        && mailbox.state == Settle(old(mailbox.state), added)
        && tally == TallyOf(added)
    {
      hide Resolutions, Settle, SettleOne, TallyOf, Bump, HasId;
      ghost var was, state := log.events, mailbox.state;
      ghost var added := [];
      var nextId := base;
      NothingRuled(rule, p, state, base, now);
      assert sims[..0] == [];
      tally := Tally(0, 0, 0);
      for i := 0 to |sims|
        invariant added == Resolutions(rule, p, sims[..i], base, now)
        invariant nextId == base + |added|
        invariant log.events == was + added
        invariant mailbox.state == Settle(state, added)
        invariant tally == TallyOf(added)
      {
        ResolutionsAreFresh(was, rule, p, sims[..i], base, now);
        ResolutionsStep(rule, p, sims, i, base, now);
        var ruling := rule(sims[i]);
        if ruling != Skip {
          RecordResolution(p, ruling, sims[i], nextId, now);
          tally := Bump(tally, ruling.decision);
          added := Extend(was, state, added, Resolution(p, ruling, sims[i], nextId, now));
          nextId := nextId + 1;
        }
      }
      assert sims[..|sims|] == sims;
    }

    /** The push stage when the transport may raise; without a waiting message
        it is not called at all. */
    method TryPush(p: PeerId, reply: Option<SyncResult>) returns (pushed: nat, failed: bool)
      requires Valid()
      modifies mailbox`state
      ensures mailbox.Contents() == PushStage(old(mailbox.Contents()), p, reply)
      ensures pushed == PushedCount(old(mailbox.Contents()), p, reply)
      ensures failed <==> reply.None? && PendingFor(old(mailbox.Contents()), p) != []
    {
      ghost var b := mailbox.Contents();
      if reply.Some? {
        var offered;
        pushed, offered := PushOutbox(p, reply.value);
        failed := false;
      } else {
        var pending := mailbox.LoadEvents(mailbox.outbox, Some(PendingDelivery), None);
        FilterAgree(Selected(b.state, Some(PendingDelivery)), HasStatus(b.state, PendingDelivery), b.outbox);
        pushed, failed := 0, Filter(WithPeer(p), pending) != [];
      }
    }

    method TryPull(msgs: Option<seq<Message>>, base: Id) returns (received: nat)
      modifies mailbox, log`events
      ensures received == |Fetched(msgs, base)|
      ensures mailbox.Contents() == PullBox(old(mailbox.Contents()), Fetched(msgs, base))
      ensures log.events == PullLog(old(log.events), Fetched(msgs, base))
    {
      if msgs.Some? {
        received := PullInbox(msgs.value, base);
      } else {
        received := 0;
      }
    }

    /** Push, then pull. `reply` and `msgs` are what the transport answers to
        deliver and fetch, None when it raises; a failing stage is reported and
        does not stop the next one. */
    method Exchange(p: PeerId, reply: Option<SyncResult>, msgs: Option<seq<Message>>, base: Id)
      returns (pushed: nat, received: nat, errors: seq<Stage>)
      requires Valid()
      modifies mailbox, log`events
      ensures mailbox.Contents() == PullBox(PushStage(old(mailbox.Contents()), p, reply), Fetched(msgs, base))
      ensures log.events == PullLog(old(log.events), Fetched(msgs, base))
      ensures pushed == PushedCount(old(mailbox.Contents()), p, reply)
      ensures received == |Fetched(msgs, base)|
      ensures errors == Failures(old(mailbox.Contents()), p, reply, msgs)
    {
      var failed;
      pushed, failed := TryPush(p, reply);
      received := TryPull(msgs, base);
      errors :=
        if failed then (if msgs.None? then [Pushing, Pulling] else [Pushing])
        else if msgs.None? then [Pulling] else [];
    }

    /** The whole synchronisation: exchange, then reconcile. */
    method SyncWithPeer(p: PeerId, reply: Option<SyncResult>, msgs: Option<seq<Message>>, base: Id, now: Time)
      returns (report: SyncReport)
      requires Valid()
      // The ids handed out during reconciliation are new to the log as pulled.
      requires AllBelow(PullLog(log.events, Fetched(msgs, base)), base + |Fetched(msgs, base)|)
      modifies mailbox, log`events
      ensures var b := old(mailbox.Contents());
        var es := Fetched(msgs, base);
        var log2 := PullLog(old(log.events), es);
        var added := ReconcileStage(log2, p, resolver, base + |es|, now);
        && mailbox.Contents() == Settled(PullBox(PushStage(b, p, reply), es), added)
        && log.events == log2 + added
        && report == SyncReport(PushedCount(b, p, reply), |es|, TallyOf(added), Failures(b, p, reply, msgs))
    {
      hide *;
      var pushed, received, errors := Exchange(p, reply, msgs, base);
      var tally := ReconcileSimulatedAnswers(p, base + received, now);
      report := SyncReport(pushed, received, tally, errors);
    }
  }

  lemma NothingRuled(rule: Event -> Ruling, p: PeerId, state: StatusMap, base: Id, now: Time)
    ensures Resolutions(rule, p, [], base, now) == [] && Settle(state, []) == state
    ensures TallyOf([]) == Tally(0, 0, 0)
  {}

  lemma Extend(was: seq<Event>, state: StatusMap, added: seq<Event>, e: Event) returns (longer: seq<Event>)
    requires e.inReplyTo.Some?
    ensures longer == added + [e]
    ensures was + longer == was + added + [e]
    ensures Settle(state, longer) == SettleOne(Settle(state, added), e.inReplyTo.value, e.kind)
    ensures TallyOf(longer) == Bump(TallyOf(added), e.kind)
  {
    longer := added + [e];
    SettleStep(state, added, e);
    FilterConcat(OfKind(ConfirmedEvent), added, [e]);
    FilterConcat(OfKind(RevisedEvent), added, [e]);
    FilterConcat(OfKind(ReviewEvent), added, [e]);
  }

  lemma {:induction false} ResolutionIds(rule: Event -> Ruling, p: PeerId, sims: seq<Event>, base: Id, now: Time)
    ensures var r := Resolutions(rule, p, sims, base, now);
            forall i :: 0 <= i < |r| ==> r[i].id == base + i
  {
    if sims == [] {
    } else {
      var n := |sims| - 1;
      ResolutionIds(rule, p, sims[..n], base, now);
      ResolutionsStep(rule, p, sims, n, base, now);
      assert sims[..n+1] == sims;
    }
  }

  lemma ResolutionsStep(rule: Event -> Ruling, p: PeerId, sims: seq<Event>, i: nat, base: Id, now: Time)
    requires i < |sims|
    ensures var r := Resolutions(rule, p, sims[..i], base, now);
            Resolutions(rule, p, sims[..i+1], base, now)
            == if rule(sims[i]) == Skip then r
               else r + [Resolution(p, rule(sims[i]), sims[i], base + |r|, now)]
  {
    assert sims[..i+1][..i] == sims[..i];
  }

  lemma ResolutionsAreFresh(was: seq<Event>, rule: Event -> Ruling, p: PeerId, sims: seq<Event>, base: Id, now: Time)
    requires AllBelow(was, base)
    ensures var r := Resolutions(rule, p, sims, base, now);
      !HasId(was + r, base + |r|)
  {
    ResolutionIds(rule, p, sims, base, now);
  }

  lemma ResolutionsAreNew(was: seq<Event>, rule: Event -> Ruling, p: PeerId, sims: seq<Event>, base: Id, now: Time)
    requires AllBelow(was, base)
    ensures var r := Resolutions(rule, p, sims, base, now);
      && !HasId(was + r, base + |r|)
      && AllBelow(was + r, base + |r|)
      && (UniqueIds(was) ==> UniqueIds(was + r))
  {
    ResolutionIds(rule, p, sims, base, now);
  }

  lemma {:induction false} SettleAdvances(state: StatusMap, es: seq<Event>)
    ensures Advances(state, Settle(state, es))
  {
    if es == [] {
    } else {
      var before := Settle(state, es[..|es|-1]);
      SettleAdvances(state, es[..|es|-1]);
      forall id | id in state ensures CanReach(state[id], Settle(state, es)[id]) {
        CanReachIsAnOrder(state[id], before[id], Settle(state, es)[id]);
      }
    }
  }

  lemma SettleStep(state: StatusMap, es: seq<Event>, e: Event)
    requires e.inReplyTo.Some?
    ensures Settle(state, es + [e]) == SettleOne(Settle(state, es), e.inReplyTo.value, e.kind)
  {
    assert (es + [e])[..|es|] == es;
  }

  // Settling in two goes is settling in one.
  lemma {:induction false} SettleConcat(state: StatusMap, a: seq<Event>, b: seq<Event>)
    ensures Settle(state, a + b) == Settle(Settle(state, a), b)
  {
    if b == [] {
      assert a + b == a;
    } else {
      var init, e := b[..|b|-1], b[|b|-1];
      assert (a + b)[..|a + b|-1] == a + init;
      SettleConcat(state, a, init);
    }
  }

  lemma PullLogBelow(log: seq<Event>, es: seq<Event>, next: Id)
    requires AllBelow(log, next) && AllBelow(es, next) && UniqueIds(log)
    ensures AllBelow(PullLog(log, es), next)
  {
    PullLogLaws(log, es);
    var r := PullLog(log, es);
    forall i | 0 <= i < |r| ensures r[i].id < next {
      assert r[i] in log || r[i] in es;
    }
  }

  lemma ReconcileKeepsValid(b: Box, log: seq<Event>, p: PeerId, resolver: Option<Resolver>, base: Id, now: Time)
    requires b.Valid() && UniqueIds(log) && AllBelow(log, base)
    ensures var added := ReconcileStage(log, p, resolver, base, now);
      && Settled(b, added).Valid()
      && UniqueIds(log + added) && AllBelow(log + added, base + |added|)
  {
    var added := ReconcileStage(log, p, resolver, base, now);
    SettleAdvances(b.state, added);
    if resolver.Some? {
      ResolutionsAreNew(log, Rulings(log, p, resolver.value), p, Simulated(log, p), base, now);
    } else {
      assert log + added == log;
    }
  }

  /** A synchronisation leaves the mailbox and the log well formed, only advances
      statuses, and only appends to the inbox and to the log. */
  lemma SyncKeepsInvariants(b: Box, log: seq<Event>, p: PeerId, reply: Option<SyncResult>, es: seq<Event>,
                       resolver: Option<Resolver>, base: Id, now: Time)
    requires b.Valid() && UniqueIds(log) && AllBelow(log, base) && AllBelow(es, base)
    ensures var log2 := PullLog(log, es);
      var added := ReconcileStage(log2, p, resolver, base, now);
      var b' := Settled(PullBox(PushStage(b, p, reply), es), added);
      && b'.Valid() && b'.outbox == b.outbox && b.inbox <= b'.inbox && Advances(b.state, b'.state)
      && log <= log2 + added && UniqueIds(log2 + added) && AllBelow(log2 + added, base + |added|)
  {
    var b1 := PushStage(b, p, reply);
    if reply.Some? {
      PushLaws(b, p, reply.value, p);
    }
    var b2, log2 := PullBox(b1, es), PullLog(log, es);
    PullBoxLaws(b1, es);
    PullLogLaws(log, es);
    PullLogBelow(log, es, base);
    var added := ReconcileStage(log2, p, resolver, base, now);
    ReconcileKeepsValid(b2, log2, p, resolver, base, now);
    SettleAdvances(b2.state, added);
    forall id | id in b.state ensures CanReach(b.state[id], Settle(b2.state, added)[id]) {
      CanReachIsAnOrder(b.state[id], b1.state[id], Settle(b2.state, added)[id]);
    }
  }
}
