/** A team of peers that ask each other and synchronise: what the sessions of
    server/async_comm/peer_comm.py do is a run of the network, so both sets of laws
    hold together. */
module PeerRuns {
  import opened Collections
  import opened CommTypes
  import opened VectorClocks
  import opened Mailboxes
  import opened ConversationLogs
  import opened SyncProtocols
  import opened PeerNetwork
  import Comms = PeerComms

  // What a peer remembers beside its mailbox and log.
  datatype Talk = Talk(states: States, clock: Clock)

  datatype Team = Team(world: World, talks: map<PeerId, Talk>)

  // A session operation of one peer, with what the transport does to its real-time
  // message if there is one; or any step of the network.
  datatype Step =
    | InSession(p: PeerId, op: Comms.Op, at: Time, messageId: Id, accepted: bool)
    | InNetwork(a: Action)

  predicate Has(t: Team, p: PeerId) {
    p in t.world.nodes && p in t.talks
  }

  function SessionOf(t: Team, p: PeerId): Comms.Session
    requires Has(t, p)
  {
    Comms.Session(t.world.nodes[p].box, t.world.nodes[p].log, t.talks[p].states, t.talks[p].clock)
  }

  // How many ids an operation hands out, from the base of its environment on.
  function IdsUsed(op: Comms.Op): nat {
    match op
    case Online(_, _, _, _, _) => 2
    case Offline(_, _, _, shadow, _) => if shadow then 3 else 1
    case Failed(_, _, _, _) => 1
    case _ => 0
  }

  predicate IsAsk(op: Comms.Op) {
    op.Online? || op.Offline? || op.Failed?
  }

  // Synchronising is what the steps of the network are for; an ask uses unused ids.
  ghost predicate Allowed(t: Team, step: Step) {
    match step
    case InSession(p, op, _, _, _) => Has(t, p) && !op.Synced? && (IsAsk(op) ==> op.env.base >= t.world.next)
    case InNetwork(a) => Enabled(t.world, a)
  }

  function AskOf(t: Team, p: PeerId, op: Comms.Op): Event
    requires Has(t, p) && IsAsk(op)
  {
    Comms.NewAsk(SessionOf(t, p), p, op.p, op.question, op.inReplyTo, op.env)
  }

  function ShadowAskOf(ask: Event, op: Comms.Op): Event
    requires op.Offline?
  {
    Comms.AskEvent(op.p, op.question, Some(ask.id), op.env.snapshotClock, op.env.base + 1, op.env.now)
  }

  // What an operation sends: its ask in real time, or through the outbox with the
  // shadow's ask behind it.
  function SentIn(t: Team, step: Step): set<Sent>
    requires step.InSession? && Has(t, step.p)
  {
    var op := step.op;
    if !IsAsk(op) then {}
    else
      var ask := AskOf(t, step.p, op);
      if !op.Offline? then {Sent(step.p, Live(ask, step.at), step.messageId, !step.accepted)}
      else if !op.shadow then {Sent(step.p, ask, ask.id, false)}
      else {Sent(step.p, ask, ask.id, false), Sent(step.p, ShadowAskOf(ask, op), op.env.base + 1, false)}
  }

  // The team after a step: a session operation does to the peer what `PeerComm` does,
  // and puts its real-time message on the wire if the transport takes it.
  ghost function After(t: Team, step: Step): Team
    requires Allowed(t, step)
  {
    match step
    case InNetwork(a) => t.(world := Next(t.world, a))
    case InSession(p, op, _, _, accepted) =>
      var s := Comms.Apply(SessionOf(t, p), p, op);
      var sent := SentIn(t, step);
      var w := t.world.(
        nodes := t.world.nodes[p := Node(s.box, s.log)],
        sent := t.world.sent + sent,
        wire := t.world.wire + if op.Offline? || !accepted then {} else set x | x in sent :: MessageOf(x),
        next := if IsAsk(op) then op.env.base + IdsUsed(op) else t.world.next);
      Team(w, t.talks[p := Talk(s.states, s.clock)])
  }

  // The same step as a list of network actions.
  ghost function Actions(t: Team, step: Step): seq<Action>
    requires Allowed(t, step)
  {
    match step
    case InNetwork(a) => [a]
    case InSession(p, op, at, messageId, accepted) =>
      if !IsAsk(op) then []
      else
        var ask := AskOf(t, p, op);
        match op
        case Offline(q, question, _, shadow, env) =>
          if !shadow then [Compose(p, ask, true)]
          else
            var second := ShadowAskOf(ask, op);
            var answer := Comms.ShadowEvent(q, second.id, env, env.base + 2);
            [Compose(p, ask, true), Compose(p, second, true), Note(p, answer)]
        case Online(q, _, _, msgs, env) =>
          var clock := Incremented(t.talks[p].clock, p);
          var answer := Comms.AnswerEvent(q, Comms.AnswerIn(msgs, ask.id), ask.id, clock, env.base + 1, env.now);
          [Deliver(p, ask, at, messageId, accepted), Note(p, answer)]
        case _ => [Deliver(p, ask, at, messageId, accepted)]
  }

  lemma RunOfOne(w: World, a: Action)
    requires Enabled(w, a)
    ensures IsRun(w, [a], Next(w, a))
  {
    assert [a][1..] == [];
  }

  lemma RunCons(w: World, a: Action, rest: seq<Action>, last: World)
    requires Enabled(w, a) && IsRun(Next(w, a), rest, last)
    ensures IsRun(w, [a] + rest, last)
  {
    assert ([a] + rest)[1..] == rest;
  }

  lemma OfflineIsRun(t: Team, step: Step)
    requires step.InSession? && step.op.Offline? && Allowed(t, step)
    ensures IsRun(t.world, Actions(t, step), After(t, step).world)
  {
    hide AppendOutbox, Append, Incremented, IsRun;
    var w, p, op, last := t.world, step.p, step.op, After(t, step).world;
    var ask := AskOf(t, p, op);
    var first := Compose(p, ask, true);
    var w1 := Next(w, first);
    if op.shadow {
      var second := ShadowAskOf(ask, op);
      var a2, a3 := Compose(p, second, true), Note(p, Comms.ShadowEvent(op.p, second.id, op.env, op.env.base + 2));
      var w2 := Next(w1, a2);
      var w3 := Next(w2, a3);
      assert w3.nodes == last.nodes && w3.wire == last.wire && w3.sent == last.sent && w3.next == last.next;
      RunOfOne(w2, a3);
      RunCons(w1, a2, [a3], w3);
      RunCons(w, first, [a2] + [a3], w3);
      assert [first] + ([a2] + [a3]) == [first, a2, a3];
    } else {
      assert w1.nodes == last.nodes && w1.wire == last.wire && w1.sent == last.sent && w1.next == last.next;
      RunOfOne(w, first);
    }
  }

  lemma RealTimeIsRun(t: Team, step: Step)
    requires step.InSession? && (step.op.Online? || step.op.Failed?) && Allowed(t, step)
    ensures IsRun(t.world, Actions(t, step), After(t, step).world)
  {
    hide Append, Incremented, IsRun, Comms.AnswerIn;
    var w, p, op, last := t.world, step.p, step.op, After(t, step).world;
    var ask := AskOf(t, p, op);
    var first := Deliver(p, ask, step.at, step.messageId, step.accepted);
    var w1 := Next(w, first);
    var s := Sent(p, Live(ask, step.at), step.messageId, !step.accepted);
    assert (set x | x in {s} :: MessageOf(x)) == {MessageOf(s)};
    if op.Online? {
      var clock := Incremented(t.talks[p].clock, p);
      var env := op.env;
      var answer := Comms.AnswerEvent(op.p, Comms.AnswerIn(op.msgs, ask.id), ask.id, clock, env.base + 1, env.now);
      var note := Note(p, answer);
      var w2 := Next(w1, note);
      assert w2.nodes == last.nodes && w2.wire == last.wire && w2.sent == last.sent && w2.next == last.next;
      RunOfOne(w1, note);
      RunCons(w, first, [note], w2);
      assert [first] + [note] == [first, note];
    } else {
      assert w1.nodes == last.nodes && w1.wire == last.wire && w1.sent == last.sent && w1.next == last.next;
      RunOfOne(w, first);
    }
  }

  /** Every step of a team is a list of network actions. */
  lemma StepIsNetworkRun(t: Team, step: Step)
    requires Allowed(t, step)
    ensures IsRun(t.world, Actions(t, step), After(t, step).world)
  {
    match step
    case InNetwork(a) => RunOfOne(t.world, a);
    case InSession(p, op, _, _, _) =>
      if op.Offline? {
        OfflineIsRun(t, step);
      } else if IsAsk(op) {
        RealTimeIsRun(t, step);
      } else {
        var w, last := t.world, After(t, step).world;
        assert w.nodes[p] == Node(w.nodes[p].box, w.nodes[p].log);
        assert last.nodes == w.nodes && last.sent == w.sent && last.wire == w.wire;
      }
  }

  // The network actions of one synchronisation: a stage whose transport call raises, or
  // that lacks a resolver, does nothing.
  function SyncActions(
    p: PeerId, q: PeerId, reply: Option<SyncResult>, taken: set<Id>, msgs: Option<seq<Message>>,
    resolver: Option<Resolver>, base: Id, now: Time): seq<Action>
  {
    (if reply.Some? then [DoPush(p, q, reply.value, taken)] else [])
    + (if msgs.Some? then [DoPull(p, q, msgs.value)] else [])
    + if resolver.Some? then [DoReconcile(p, q, resolver.value, base, now)] else []
  }

  /** What `SyncProtocol.SyncWithPeer` promises about mailbox and log is a run of the
      network: push, then pull, then reconcile. */
  lemma SyncIsNetworkRun(
    w: World, p: PeerId, q: PeerId, reply: Option<SyncResult>, taken: set<Id>, msgs: Option<seq<Message>>,
    resolver: Option<Resolver>, now: Time) returns (last: World)
    requires p in w.nodes
    requires reply.Some? ==> Enabled(w, DoPush(p, q, reply.value, taken))
    requires msgs.Some? ==> forall m :: m in msgs.value ==>
      m.recipient == p && (m in w.wire || (reply.Some? && m in Carried(w.nodes[p], p, q, taken)))
    ensures var es := Fetched(msgs, w.next);
      var base := w.next + |es|;
      var log := PullLog(w.nodes[p].log, es);
      var added := ReconcileStage(log, q, resolver, base, now);
      && IsRun(w, SyncActions(p, q, reply, taken, msgs, resolver, base, now), last)
      && p in last.nodes
      && last.nodes[p] == Node(Settled(PullBox(PushStage(w.nodes[p].box, q, reply), es), added), log + added)
  {
    hide IsRun, PullBox, PullLog, Push, Reconciled, Settle, Arrivals;
    var n, es := w.nodes[p], Fetched(msgs, w.next);
    var base := w.next + |es|;
    var w1, w2 := w, w;
    var a1, a2, a3: seq<Action> := [], [], [];
    EmptyRun(w1);
    if reply.Some? {
      a1, w1 := [DoPush(p, q, reply.value, taken)], Next(w, DoPush(p, q, reply.value, taken));
      RunOfOne(w, a1[0]);
    }
    assert w1.nodes[p] == Node(PushStage(n.box, q, reply), n.log) && w1.next == w.next;
    w2 := w1;
    EmptyRun(w2);
    if msgs.Some? {
      a2, w2 := [DoPull(p, q, msgs.value)], Next(w1, DoPull(p, q, msgs.value));
      RunOfOne(w1, a2[0]);
    } else {
      NothingPulled(w1.nodes[p]);
    }
    assert w2.nodes[p] == Node(PullBox(w1.nodes[p].box, es), PullLog(n.log, es)) && w2.next == w.next;
    last := w2;
    EmptyRun(w2);
    if resolver.Some? {
      var reconcile := DoReconcile(p, q, resolver.value, base, now);
      a3, last := [reconcile], Next(w2, reconcile);
      RunOfOne(w2, reconcile);
    } else {
      NothingSettled(w2.nodes[p]);
    }
    RunConcat(w, a1, w1, a2, w2);
    RunConcat(w, a1 + a2, w2, a3, last);
  }

  lemma NothingPulled(n: Node)
    ensures PullBox(n.box, []) == n.box && PullLog(n.log, []) == n.log
  {}

  lemma NothingSettled(n: Node)
    ensures Settled(n.box, []) == n.box && n.log + [] == n.log
  {}

  // ----- Runs of a team -----

  ghost predicate IsTeamRun(t: Team, steps: seq<Step>, last: Team)
    decreases |steps|
  {
    if steps == [] then last == t
    else Allowed(t, steps[0]) && IsTeamRun(After(t, steps[0]), steps[1..], last)
  }

  lemma {:induction false} RunConcat(w: World, a: seq<Action>, mid: World, b: seq<Action>, last: World)
    requires IsRun(w, a, mid) && IsRun(mid, b, last)
    ensures IsRun(w, a + b, last)
    decreases |a|
  {
    hide Enabled, Next;
    if a == [] {
      assert a + b == b;
    } else {
      assert (a + b)[1..] == a[1..] + b;
      RunConcat(Next(w, a[0]), a[1..], mid, b, last);
    }
  }

  lemma {:induction false} TeamRunIsNetworkRun(t: Team, steps: seq<Step>, last: Team) returns (run: seq<Action>)
    requires IsTeamRun(t, steps, last)
    ensures IsRun(t.world, run, last.world)
    decreases |steps|
  {
    hide IsRun, After, Actions, Allowed;
    if steps == [] {
      run := [];
      EmptyRun(t.world);
    } else {
      var u := After(t, steps[0]);
      StepIsNetworkRun(t, steps[0]);
      var rest := TeamRunIsNetworkRun(u, steps[1..], last);
      run := Actions(t, steps[0]) + rest;
      RunConcat(t.world, Actions(t, steps[0]), u.world, rest, last.world);
    }
  }

  lemma EmptyRun(w: World)
    ensures IsRun(w, [], w)
  {}

  ghost predicate EntriesOk(t: Team) {
    forall p :: Has(t, p) ==> Comms.EntriesNameEvents(SessionOf(t, p))
  }

  // Entries survive a longer log.
  lemma EntriesGrow(s: Comms.Session, log: seq<Event>)
    requires Comms.EntriesNameEvents(s) && s.log <= log
    ensures Comms.EntriesNameEvents(s.(log := log))
  {
    forall p | p in s.states ensures Comms.Names(log, p, s.states[p].lastEvent.value) {
      Comms.NamesGrows(s.log, log, p, s.states[p].lastEvent.value);
    }
  }

  // Entries depend on the log and the states only.
  lemma SameEntries(s: Comms.Session, u: Comms.Session)
    requires s.log == u.log && s.states == u.states && Comms.EntriesNameEvents(s)
    ensures Comms.EntriesNameEvents(u)
  {}

  lemma NewIdsFor(t: Team, step: Step)
    requires Inv(t.world) && Allowed(t, step) && step.InSession?
    ensures Comms.UsesNewIds(SessionOf(t, step.p), step.op)
  {
    assert NodeOk(step.p, t.world.nodes[step.p], t.world.sent, t.world.wire, t.world.next);
  }

  lemma StepKeepsEntries(t: Team, step: Step)
    requires Inv(t.world) && EntriesOk(t) && Allowed(t, step)
    ensures EntriesOk(After(t, step))
  {
    hide Inv;
    var u := After(t, step);
    forall p | Has(u, p) ensures Comms.EntriesNameEvents(SessionOf(u, p)) {
      if step.InNetwork? {
        LogsGrow(t.world, step.a);
        hide Next, Comms.EntriesNameEvents;
        SameKeys(t.world, step.a);
        EntriesGrow(SessionOf(t, p), u.world.nodes[p].log);
        SameEntries(SessionOf(t, p).(log := u.world.nodes[p].log), SessionOf(u, p));
      } else if p == step.p {
        NewIdsFor(t, step);
        Comms.ApplyKeepsEntries(SessionOf(t, p), p, step.op);
        SameEntries(Comms.Apply(SessionOf(t, p), p, step.op), SessionOf(u, p));
      } else {
        SameEntries(SessionOf(t, p), SessionOf(u, p));
      }
    }
  }

  lemma SameKeys(w: World, a: Action)
    requires Enabled(w, a)
    ensures Next(w, a).nodes.Keys == w.nodes.Keys
  {}

  lemma {:induction false} RunKeepsEntries(t: Team, steps: seq<Step>, last: Team)
    requires Inv(t.world) && EntriesOk(t) && IsTeamRun(t, steps, last)
    ensures EntriesOk(last)
    decreases |steps|
  {
    hide Inv, IsRun, Allowed, EntriesOk, Actions, After;
    if steps == [] {
    } else {
      StepIsNetworkRun(t, steps[0]);
      RunKeeps(t.world, Actions(t, steps[0]), After(t, steps[0]).world);
      StepKeepsEntries(t, steps[0]);
      RunKeepsEntries(After(t, steps[0]), steps[1..], last);
    }
  }

  ghost predicate Fresh(t: Team) {
    Initial(t.world) && forall p :: p in t.talks ==> t.talks[p].states == map[]
  }

  /** In every run of peers that ask, pause, time out and resume while they push, pull
      and reconcile: what is sent is under way if and only if it was not refused in real
      time; inboxes and logs hold an id at most once; and every conversation entry names
      a logged event of its peer. */
  lemma TeamLaws(t: Team, steps: seq<Step>, last: Team)
    requires Fresh(t) && IsTeamRun(t, steps, last)
    ensures forall s :: s in last.world.sent ==>
      s.by_ in last.world.nodes && (UnderWay(last.world, s) <==> !s.refused)
    ensures forall s :: s in last.world.sent && s.refused ==>
      ReachesNobody(last.world, s.event.id) && HasId(last.world.nodes[s.by_].log, s.event.id)
    ensures forall p :: p in last.world.nodes ==>
      UniqueIds(last.world.nodes[p].box.inbox) && UniqueIds(last.world.nodes[p].log)
    ensures EntriesOk(last)
  {
    assert Inv(t.world) && EntriesOk(t) by {
      EveryRun(t.world, [], t.world);
    }
    hide Inv, IsRun, IsTeamRun, UnderWay, ReachesNobody, HasId, EntriesOk, UniqueIds;
    var run := TeamRunIsNetworkRun(t, steps, last);
    EveryRun(t.world, run, last.world);
    RunKeepsEntries(t, steps, last);
  }

  // An ask to a peer believed reachable, refused by the transport: the conversation is
  // active, a pending answer is logged, and nothing is queued, waiting or on the wire.
  lemma RefusedAskIsLost(p: PeerId, q: PeerId, question: Text, env: Comms.Env, messageId: Id)
    requires p != q
    ensures var empty := Node(Box([], [], map[]), []);
      var t := Team(World(map[p := empty, q := empty], {}, {}, 0), map[p := Talk(map[], map[])]);
      var step := InSession(p, Comms.Online(q, question, None, [], env), env.now, messageId, false);
      Fresh(t) && Allowed(t, step) &&
      var u := After(t, step);
      && u.world.nodes[p].box == empty.box && u.world.wire == {} && HasId(u.world.nodes[p].log, env.base)
      && q in u.talks[p].states && u.talks[p].states[q] == Entry(Active, Some(env.base + 1), RealtimeActive, env.now)
      && ReachesNobody(u.world, env.base)
  {
    var empty := Node(Box([], [], map[]), []);
    var t := Team(World(map[p := empty, q := empty], {}, {}, 0), map[p := Talk(map[], map[])]);
    var step := InSession(p, Comms.Online(q, question, None, [], env), env.now, messageId, false);
    var ask := AskOf(t, p, step.op);
    AppendLaws([], ask);
    var log := After(t, step).world.nodes[p].log;
    assert log[0] == ask;
  }
}
